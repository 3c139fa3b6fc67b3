/** Who may hold the "devices" row: mutual exclusion and exactly-once release over all runs. */
module SyncLocking {
  import opened Common
  import opened Joblock
  import opened SyncProtocol

  function Held(s: State, j: JobId): nat { if j in s.rows then 1 else 0 }

  /** A sync that handed its row to a confirm job no longer touches it. */
  ghost predicate Handed(s: State, j: JobId, c: JobId) {
    && j in s.jobs && s.jobs[j].Sync? && s.jobs[j].next == Some(c)
    && (s.jobs[j].phase.Handover? || !Live(s.jobs[j].phase))
    && c in s.jobs && s.jobs[c].Confirm? && s.jobs[c].prev == j
  }

  ghost predicate JobLockOk(s: State, j: JobId)
    requires j in s.jobs
  {
    var job := s.jobs[j];
    && (Critical(job) ==> LockId(j, job) in s.rows)
    && (job.Confirm? ==>
          && j !in s.rows && s.grants[j] == 0 && Handed(s, job.prev, j)
          && (job.phase.Ended? ==> job.prev !in s.rows)
          && (job.phase.Waiting? || job.phase.Running? || !Live(job.phase)))
    && (job.Sync? && job.next.Some? ==> Handed(s, j, job.next.value))
    && (job.Sync? && job.phase.Handover? ==> job.next.Some?)
    && (!job.Confirm? && (job.phase.Waiting? || job.phase.SawFree?) ==> s.grants[j] == 0)
    && (!job.Confirm? && job.phase.Ended? ==> s.grants[j] == 1)
    && (job.Sync? && job.phase.Ended? && job.next == None ==> j !in s.rows)
    && (job.Sync? && job.phase.Ended? && job.next.Some? ==>
          job.next.value in s.jobs && !Live(s.jobs[job.next.value].phase))
    && (job.Sync? && job.phase.Handover? ==> s.grants[j] == 1)
    && (job.Refresh? ==> !job.phase.Settled? && !job.phase.Sleeping? && !job.phase.Handover?)
    && (job.Refresh? && job.phase.Ended? ==> j !in s.rows)
  }

  ghost predicate LockInv(s: State) {
    && (forall j :: j in s.rows ==> s.rows[j] == DEVICES && j in s.jobs && s.grants[j] == 1)
    && UniqueNames(s.rows)
    && (forall j :: s.grants[j] == s.releases[j] + Held(s, j) && s.grants[j] <= 1)
    && (forall j :: s.grants[j] == 1 ==> j in s.jobs)
    && (forall j :: j in s.jobs ==> JobLockOk(s, j))
  }

  ghost predicate SameShape(a: Job, b: Job) {
    && (a.Sync? <==> b.Sync?) && (a.Confirm? <==> b.Confirm?)
    && (a.Sync? && b.Sync? ==> a.next == b.next)
    && (a.Confirm? && b.Confirm? ==> a.prev == b.prev)
  }

  ghost predicate SameRows(s: State, s': State) {
    s'.rows == s.rows && s'.grants == s.grants && s'.releases == s.releases
  }

  /** Only the phase of job j moved, or nothing that concerns the lock at all. */
  ghost predicate Moves(s: State, s': State, j: JobId) {
    && s'.jobs.Keys == s.jobs.Keys
    && (forall k :: k in s.jobs ==> SameShape(s.jobs[k], s'.jobs[k]))
    && (forall k :: k in s.jobs && k != j ==> s'.jobs[k].phase == s.jobs[k].phase)
    && (j in s.jobs && s'.jobs[j].phase != s.jobs[j].phase ==>
          Live(s.jobs[j].phase) && (s.jobs[j].phase.Handover? ==> !Live(s'.jobs[j].phase)))
  }

  lemma PhaseKeepsLock(s: State, s': State, j: JobId)
    requires LockInv(s) && SameRows(s, s') && Moves(s, s', j)
    requires j in s.jobs ==> JobLockOk(s', j)
    ensures LockInv(s')
  {
    forall k | k in s'.jobs ensures JobLockOk(s', k) {
      assert JobLockOk(s, k);
    }
  }

  lemma ReleaseKeepsLock(s: State, s': State, owner: JobId, j: JobId)
    requires LockInv(s) && j in s.jobs && Critical(s.jobs[j]) && owner == LockId(j, s.jobs[j])
    requires Moves(s, s', j) && !Live(s'.jobs[j].phase) && s.jobs[j].phase != s'.jobs[j].phase
    requires s'.grants == s.grants
    requires s'.rows == s.rows - {owner} && s'.releases == s.releases + multiset{owner}
    ensures owner in s.rows && LockInv(s')
  {
    assert JobLockOk(s, j);
    forall k | k in s'.jobs ensures JobLockOk(s', k) {
      assert JobLockOk(s, k);
      if Critical(s.jobs[k]) && k != j {
        OneCritical(s, j, k);
      }
    }
  }

  lemma OneCritical(s: State, j: JobId, k: JobId)
    requires LockInv(s) && j in s.jobs && k in s.jobs && Critical(s.jobs[j]) && Critical(s.jobs[k])
    ensures j == k
  {
    assert JobLockOk(s, j) && JobLockOk(s, k);
    assert LockId(j, s.jobs[j]) == LockId(k, s.jobs[k]);
  }

  ghost predicate Quiet(s: State, s': State) {
    && SameRows(s, s') && s'.jobs.Keys == s.jobs.Keys
    && forall k :: k in s.jobs ==> SameShape(s.jobs[k], s'.jobs[k]) && s'.jobs[k].phase == s.jobs[k].phase
  }

  lemma QuietKeepsLock(s: State, s': State)
    requires LockInv(s) && Quiet(s, s')
    ensures LockInv(s')
  {
    forall k | k in s'.jobs ensures JobLockOk(s', k) {
      assert JobLockOk(s, k);
    }
  }

  lemma NewJobKeepsLock(s: State, j: JobId, job: Job)
    requires LockInv(s) && j !in s.jobs && !job.Confirm? && job.phase == Waiting(0)
    requires job.Sync? ==> job.next == None
    ensures LockInv(SetJob(s, j, job))
  {
    var s' := SetJob(s, j, job);
    forall k | k in s'.jobs ensures JobLockOk(s', k) {
      if k != j { assert JobLockOk(s, k); }
    }
  }

  lemma CrashKeepsLock(s: State, j: JobId)
    requires LockInv(s) && j in s.jobs && Live(s.jobs[j].phase)
    ensures LockInv(SetPhase(s, j, Crashed))
  {
    assert JobLockOk(s, j);
    PhaseKeepsLock(s, SetPhase(s, j, Crashed), j);
  }

  lemma SetPhaseKeepsLock(s: State, j: JobId, p: Phase)
    requires LockInv(s) && j in s.jobs && Live(s.jobs[j].phase)
    requires
      || p.Crashed?
      || (s.jobs[j].phase.Waiting? && !s.jobs[j].Confirm? && (p.Waiting? || p.SawFree?))
      || (s.jobs[j].Sync? && s.jobs[j].phase.Handover? && p.Ended? && s.jobs[j].next.Some?
          && s.jobs[j].next.value in s.jobs && !Live(s.jobs[s.jobs[j].next.value].phase))
    ensures LockInv(SetPhase(s, j, p))
  {
    if p.Crashed? {
      CrashKeepsLock(s, j);
    } else {
      assert JobLockOk(s, j);
      PhaseKeepsLock(s, SetPhase(s, j, p), j);
    }
  }

  lemma TakenOrEmpty(s: State)
    requires LockInv(s)
    ensures NameTaken(s.rows, DEVICES) || s.rows == map[]
  {
    if k :| k in s.rows { assert s.rows[k] == DEVICES; }
  }

  lemma GrantKeepsLock(s: State, j: JobId, job: Job)
    requires LockInv(s) && s.rows == map[] && Acquiring(s, j) && s.jobs[j].phase.SawFree?
    requires job.phase.Running? && SameShape(s.jobs[j], job)
    ensures LockInv(SetJob(s, j, job).(rows := s.rows[j := DEVICES], grants := s.grants + multiset{j}))
  {
    var s' := SetJob(s, j, job).(rows := s.rows[j := DEVICES], grants := s.grants + multiset{j});
    assert JobLockOk(s, j);
    forall k | k in s'.jobs ensures JobLockOk(s', k) {
      assert JobLockOk(s, k);
    }
  }

  lemma InsertKeepsLock(s: State, j: JobId)
    requires LockInv(s) && Acquiring(s, j) && s.jobs[j].phase.SawFree?
    ensures LockInv(ApplyInsert(s, j))
  {
    var s' := ApplyInsert(s, j);
    assert JobLockOk(s, j);
    if NameTaken(s.rows, DEVICES) || j in s.rows {
      PhaseKeepsLock(s, s', j);
    } else {
      TakenOrEmpty(s);
      GrantKeepsLock(s, j, s'.jobs[j]);
    }
  }

  lemma ReleaseRecords(s: State, j: JobId, devices: map<Host, Device>)
    requires j in s.jobs && j in s.rows
    ensures var s' := ReleaseThen(s, j, j, Ended, Crashed).(devices := devices);
            && s'.jobs == SetPhase(s, j, Ended).jobs && s'.early == s.early && s'.grants == s.grants
            && s'.rows == s.rows - {j} && s'.releases == s.releases + multiset{j}
  {
  }

  /** The bookkeeping after the push moves the job on, and lets the row go when that ends it. */
  lemma PushDoneRecords(s: State, j: JobId)
    requires j in s.jobs && s.jobs[j].Sync?
    ensures var s' := ApplyPushDone(s, j);
            && s'.jobs == SetPhase(s, j, s'.jobs[j].phase).jobs && s'.early == s.early && s'.grants == s.grants
            && (Live(s'.jobs[j].phase) || j !in s.rows ==> s'.rows == s.rows && s'.releases == s.releases)
            && (!Live(s'.jobs[j].phase) && j in s.rows ==>
                  s'.rows == s.rows - {j} && s'.releases == s.releases + multiset{j})
  {
    var s' := ApplyPushDone(s, j);
    if s'.jobs[j].phase.Ended? && j in s.rows { ReleaseRecords(s, j, s'.devices); }
  }

  lemma PushDoneKeepsLock(s: State, j: JobId)
    requires LockInv(s) && j in s.jobs && s.jobs[j].Sync? && s.jobs[j].phase.Running?
    ensures LockInv(ApplyPushDone(s, j))
  {
    var s' := ApplyPushDone(s, j);
    assert JobLockOk(s, j);
    PushDoneRecords(s, j);
    if Live(s'.jobs[j].phase) {
      PhaseKeepsLock(s, s', j);
    } else {
      ReleaseKeepsLock(s, s', j, j);
    }
  }

  lemma ConcludeKeepsLock(s: State, j: JobId, c: JobId)
    requires LockInv(s) && j in s.jobs && s.jobs[j].Sync? && s.jobs[j].phase.Settled? && c !in s.jobs
    ensures LockInv(ApplyConclude(s, j, c))
  {
    var s' := ApplyConclude(s, j, c);
    assert JobLockOk(s, j);
    if FailedHosts(s.jobs[j].tasks) != {} {
      PhaseKeepsLock(s, s', j);
    } else if ChangedHosts(s.jobs[j].tasks) == {} {
      ReleaseKeepsLock(s, s', j, j);
    } else {
      HandOverKeepsLock(s, j, c);
    }
  }

  lemma HandOverKeepsLock(s: State, j: JobId, c: JobId)
    requires LockInv(s) && j in s.jobs && s.jobs[j].Sync? && s.jobs[j].phase.Settled? && c !in s.jobs
    requires FailedHosts(s.jobs[j].tasks) == {} && ChangedHosts(s.jobs[j].tasks) != {}
    ensures LockInv(ApplyConclude(s, j, c))
  {
    var s' := ApplyConclude(s, j, c);
    assert JobLockOk(s, j);
    forall k | k in s'.jobs ensures JobLockOk(s', k) {
      if k in s.jobs { assert JobLockOk(s, k); }
    }
  }

  ghost predicate Releasing(a: Step) {
    a.PushRaised? || a.Wake? || a.ConfirmRaised? || a.ConfirmDone? || a.RefreshDone?
  }

  ghost predicate DeviceStep(a: Step) {
    a.EmptyDiff? || a.CommitConfig? || a.ConfirmInTask? || a.Reachable? || a.TaskFail? ||
    a.ConfirmHost? || a.ConfirmHostFail? || a.Tick? || a.Unsync?
  }

  lemma SetTaskIsQuiet(s: State, j: JobId, h: Host, t: Task)
    requires j in s.jobs && s.jobs[j].Sync?
    ensures forall d: map<Host, Device> :: Quiet(s, SetTask(s.(devices := d), j, h, t))
  {
  }

  lemma SetCTaskIsQuiet(s: State, c: JobId, h: Host, t: ConfirmTask)
    requires c in s.jobs && s.jobs[c].Confirm?
    ensures forall d: map<Host, Device> :: Quiet(s, SetCTask(s.(devices := d), c, h, t))
  {
  }

  lemma PushStepIsQuiet(s: State, a: Step)
    requires Enabled(s, a)
    requires a.EmptyDiff? || a.CommitConfig? || a.ConfirmInTask? || a.Reachable? || a.TaskFail?
    ensures Quiet(s, Apply(s, a))
  {
    var s' := Apply(s, a);
    var t := s'.jobs[a.j].tasks[a.h];
    SetTaskIsQuiet(s, a.j, a.h, t);
    assert s' == SetTask(s.(devices := s'.devices), a.j, a.h, t);
  }

  lemma ConfirmStepIsQuiet(s: State, a: Step)
    requires Enabled(s, a) && (a.ConfirmHost? || a.ConfirmHostFail?)
    ensures Quiet(s, Apply(s, a))
  {
    var s' := Apply(s, a);
    var t := s'.jobs[a.j].ctasks[a.h];
    SetCTaskIsQuiet(s, a.j, a.h, t);
    assert s' == SetCTask(s.(devices := s'.devices), a.j, a.h, t);
  }

  lemma DeviceStepIsQuiet(s: State, a: Step)
    requires Enabled(s, a) && DeviceStep(a)
    ensures Quiet(s, Apply(s, a))
  {
    if a.ConfirmHost? || a.ConfirmHostFail? {
      ConfirmStepIsQuiet(s, a);
    } else if !a.Tick? && !a.Unsync? {
      PushStepIsQuiet(s, a);
    }
  }

  /** The row of the job's lock id is gone and the job is over. */
  ghost predicate Frees(s: State, s': State, j: JobId)
    requires j in s.jobs
  {
    var owner := LockId(j, s.jobs[j]);
    && Critical(s.jobs[j]) && Moves(s, s', j) && j in s'.jobs && !Live(s'.jobs[j].phase)
    && s'.grants == s.grants && s'.rows == s.rows - {owner}
    && s'.releases == s.releases + multiset{owner}
  }

  lemma PlainReleaseFrees(s: State, a: Step)
    requires Enabled(s, a) && (a.PushRaised? || a.ConfirmRaised? || a.RefreshDone?)
    requires LockId(a.j, s.jobs[a.j]) in s.rows
    ensures Frees(s, Apply(s, a), a.j)
  {
  }

  lemma WakeFrees(s: State, j: JobId)
    requires Enabled(s, Wake(j)) && j in s.rows
    ensures Frees(s, ApplyWake(s, j), j)
  {
  }

  lemma ConfirmDoneFrees(s: State, c: JobId)
    requires Enabled(s, ConfirmDone(c)) && s.jobs[c].prev in s.rows
    ensures Frees(s, ApplyConfirmDone(s, c), c)
  {
  }

  lemma ReleasingStepFrees(s: State, a: Step)
    requires Enabled(s, a) && Releasing(a) && LockId(a.j, s.jobs[a.j]) in s.rows
    ensures Frees(s, Apply(s, a), a.j)
  {
    match a
    case Wake(j) => WakeFrees(s, j);
    case ConfirmDone(c) => ConfirmDoneFrees(s, c);
    case _ => PlainReleaseFrees(s, a);
  }

  lemma ReleasingStepKeepsLock(s: State, a: Step)
    requires LockInv(s) && Enabled(s, a) && Releasing(a)
    ensures LockInv(Apply(s, a))
  {
    var j := a.j;
    assert JobLockOk(s, j);
    ReleasingStepFrees(s, a);
    ReleaseKeepsLock(s, Apply(s, a), LockId(j, s.jobs[j]), j);
  }

  lemma LockStep(s: State, a: Step)
    requires LockInv(s) && Enabled(s, a)
    ensures LockInv(Apply(s, a))
  {
    if DeviceStep(a) {
      DeviceStepIsQuiet(s, a);
      QuietKeepsLock(s, Apply(s, a));
    } else if Releasing(a) {
      ReleasingStepKeepsLock(s, a);
    } else {
      JobStepKeepsLock(s, a);
    }
  }

  lemma JobStepKeepsLock(s: State, a: Step)
    requires LockInv(s) && Enabled(s, a) && !DeviceStep(a) && !Releasing(a)
    ensures LockInv(Apply(s, a))
  {
    if a.NewSync? || a.NewRefresh? || a.Insert? || a.PushDone? || a.Conclude? {
      match a
      case NewSync(j, override, want) => NewJobKeepsLock(s, j, NewSyncJob(s, override, want));
      case NewRefresh(j) => NewJobKeepsLock(s, j, Refresh(Waiting(0)));
      case Insert(j) => InsertKeepsLock(s, j);
      case PushDone(j) => PushDoneKeepsLock(s, j);
      case Conclude(j, c) => ConcludeKeepsLock(s, j, c);
    } else {
      PhaseStepKeepsLock(s, a);
    }
  }

  lemma ConfirmStartKeepsLock(s: State, c: JobId, selected: set<Host>)
    requires LockInv(s) && Enabled(s, ConfirmStart(c, selected))
    ensures LockInv(Apply(s, ConfirmStart(c, selected)))
  {
    assert JobLockOk(s, c);
    PhaseKeepsLock(s, Apply(s, ConfirmStart(c, selected)), c);
  }

  lemma PhaseStepKeepsLock(s: State, a: Step)
    requires LockInv(s) && Enabled(s, a) && (a.Query? || a.ConfirmStart? || a.WaitOver? || a.Crash?)
    ensures LockInv(Apply(s, a))
  {
    match a
    case Query(j) => SetPhaseKeepsLock(s, j, QueryPhase(s, j, s.jobs[j].phase.attempt));
    case ConfirmStart(c, selected) => ConfirmStartKeepsLock(s, c, selected);
    case WaitOver(j) => SetPhaseKeepsLock(s, j, Ended);
    case Crash(j) => CrashKeepsLock(s, j);
  }

  // ------------------------------------------------------------- over whole runs

  lemma {:induction false} LockInvAlongRun(s: State, run: seq<Step>)
    requires LockInv(s) && Legal(s, run)
    ensures LockInv(Exec(s, run))
    decreases |run|
  {
    if run != [] {
      LockStep(s, run[0]);
      LockInvAlongRun(Apply(s, run[0]), run[1..]);
    }
  }

  /** In every interleaving one row at most exists and one job at most works under it. */
  lemma MutualExclusion(s0: State, run: seq<Step>)
    requires Init(s0) && Legal(s0, run)
    ensures var s := Exec(s0, run);
            && |s.rows| <= 1
            && (forall j, k :: j in s.jobs && k in s.jobs && Critical(s.jobs[j]) && Critical(s.jobs[k]) ==> j == k)
            && (forall j :: j in s.jobs && Critical(s.jobs[j]) ==> s.rows == map[LockId(j, s.jobs[j]) := DEVICES])
  {
    LockInvAlongRun(s0, run);
    var s := Exec(s0, run);
    forall j, k | j in s.jobs && k in s.jobs && Critical(s.jobs[j]) && Critical(s.jobs[k]) ensures j == k {
      OneCritical(s, j, k);
    }
    if j :| j in s.rows {
      assert s.rows == map[j := DEVICES];
    }
    forall j | j in s.jobs && Critical(s.jobs[j]) ensures s.rows == map[LockId(j, s.jobs[j]) := DEVICES] {
      assert JobLockOk(s, j);
    }
  }

  /** The row of the job is inserted once and deleted once, by itself or by its confirm job. */
  lemma ReleasedExactlyOnce(s0: State, run: seq<Step>, j: JobId)
    requires Init(s0) && Legal(s0, run)
    requires var s := Exec(s0, run);
             && j in s.jobs && !s.jobs[j].Confirm? && s.jobs[j].phase.Ended?
             && (s.jobs[j].Sync? && s.jobs[j].next.Some? && s.jobs[j].next.value in s.jobs ==>
                   s.jobs[s.jobs[j].next.value].phase.Ended?)
    ensures var s := Exec(s0, run); s.grants[j] == 1 && s.releases[j] == 1 && j !in s.rows
  {
    LockInvAlongRun(s0, run);
    var s := Exec(s0, run);
    assert JobLockOk(s, j);
    if s.jobs[j].Sync? && s.jobs[j].next.Some? {
      assert JobLockOk(s, s.jobs[j].next.value);
    }
  }

  /** No release step ever meets a missing row, so JoblockError is never raised by one. */
  lemma ReleaseNeverFails(s0: State, run: seq<Step>, a: Step)
    requires Init(s0) && Legal(s0, run) && Enabled(Exec(s0, run), a)
    requires Releasing(a) || a.PushDone? || a.Conclude?
    ensures var s := Exec(s0, run); LockId(a.j, s.jobs[a.j]) in s.rows
  {
    LockInvAlongRun(s0, run);
    assert JobLockOk(Exec(s0, run), a.j);
  }
}
