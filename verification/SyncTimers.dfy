/** Where armed revert timers can come from, and when none is left. */
module SyncTimers {
  import opened Common
  import opened Joblock
  import opened SyncProtocol
  import opened SyncLocking

  /** Push results that may leave a timer of the job on the device. */
  predicate MayArm(t: Task) { t.Committing? || t.Verifying? || t == Changed(Armed) || t.Failed? }

  predicate Pushed(p: Phase) { p.Settled? || p.Sleeping? || p.Handover? }

  /** What the record of one sync job says about the device it pushed to. */
  ghost predicate TaskOk(s: State, j: JobId, h: Host)
    requires j in s.jobs && s.jobs[j].Sync?
  {
    var job := s.jobs[j];
    h in job.tasks ==>
      && h in job.want && h in s.devices
      && (job.phase.Waiting? || job.phase.SawFree? ==> job.tasks[h].Todo?)
      && (Pushed(job.phase) ==> Terminal(job.tasks[h]))
      && (job.next.Some? ==> !job.tasks[h].Failed? && Terminal(job.tasks[h]))
      && (job.tasks[h].Verifying? || job.tasks[h] == Changed(Armed) ==> job.mode == 2 && CanHold(s.devices[h].os))
      && (job.tasks[h].Committing? || job.tasks[h] == Changed(Lapsed) ==> InTask(job.mode, s.devices[h].os))
      && (job.tasks[h] == Changed(Confirmed) ==> job.mode == 0 || InTask(job.mode, s.devices[h].os))
  }

  ghost predicate TimerOk(s: State, h: Host, j: JobId)
    requires h in s.devices && j in s.devices[h].timers
  {
    var t := s.devices[h].timers[j];
    && s.now < t.deadline <= s.now + s.timeout
    && (j in s.rows || (j in s.early && t.deadline <= s.early[j] + s.timeout))
    && j in s.jobs && s.jobs[j].Sync? && s.jobs[j].mode != 0
    && h in s.jobs[j].tasks && MayArm(s.jobs[j].tasks[h])
  }

  ghost predicate JobTimerOk(s: State, j: JobId)
    requires j in s.jobs
  {
    var job := s.jobs[j];
    && (job.Sync? ==> job.tasks.Keys == job.want.Keys && forall h :: TaskOk(s, j, h))
    && (job.Sync? && job.phase.Sleeping? ==>
          forall h, k :: h in s.devices && k in s.devices[h].timers ==>
            s.devices[h].timers[k].deadline <= job.phase.until)
    && (job.Confirm? ==>
          && job.prev in s.jobs && s.jobs[job.prev].Sync?
          && job.hosts == ChangedHosts(s.jobs[job.prev].tasks)
          && job.ctasks.Keys <= job.hosts
          && (job.phase.Waiting? ==> job.ctasks == map[])
          && forall h :: h in job.ctasks && job.ctasks[h].CDone? && h in s.devices ==>
               job.prev !in s.devices[h].timers)
  }

  ghost predicate TimerInv(s: State) {
    && 0 < s.timeout
    && (forall h, j :: h in s.devices && j in s.devices[h].timers ==> TimerOk(s, h, j))
    && (forall j :: j in s.jobs ==> JobTimerOk(s, j))
  }

  ghost predicate NoTimerOf(s: State, j: JobId) {
    forall h :: h in s.devices ==> j !in s.devices[h].timers
  }

  lemma TimerFact(s: State, h: Host, j: JobId)
    requires TimerInv(s)
    ensures h in s.devices && j in s.devices[h].timers ==> TimerOk(s, h, j)
  {
  }

  lemma TaskFact(s: State, j: JobId, h: Host)
    requires TimerInv(s)
    ensures j in s.jobs && s.jobs[j].Sync? ==> TaskOk(s, j, h)
  {
    if j in s.jobs { assert JobTimerOk(s, j); }
  }

  // ---------------------------------------------------- the parts steps are made of

  /** Time may pass; timers are only taken off, and those that are left are not due. */
  ghost predicate TimersShrink(s: State, s': State) {
    && s'.timeout == s.timeout && s'.devices.Keys == s.devices.Keys
    && (forall h :: h in s.devices ==> s'.devices[h].os == s.devices[h].os)
    && (forall h, k :: h in s'.devices && k in s'.devices[h].timers ==>
          && k in s.devices[h].timers && s'.devices[h].timers[k] == s.devices[h].timers[k]
          && (s'.now == s.now || s.now <= s'.now < s.devices[h].timers[k].deadline))
  }

  /** The record of the job and what it says about another job are as before, and so is its claim to a timer. */
  ghost predicate RecordStays(s: State, s': State, k: JobId)
    requires k in s.jobs && k in s'.jobs
  {
    && s'.jobs[k] == s.jobs[k]
    && (s.jobs[k].Confirm? && s.jobs[k].prev in s.jobs && s.jobs[s.jobs[k].prev].Sync? ==>
          && s.jobs[k].prev in s'.jobs && s'.jobs[s.jobs[k].prev].Sync?
          && ChangedHosts(s'.jobs[s.jobs[k].prev].tasks) == ChangedHosts(s.jobs[s.jobs[k].prev].tasks))
  }

  ghost predicate ClaimStays(s: State, s': State, k: JobId) {
    && (k in s.rows ==> k in s'.rows)
    && (k in s.early ==> k in s'.early && s.early[k] <= s'.early[k])
  }

  /** A step that takes off timers at most has to answer for the jobs it touches only. */
  lemma KeepTimers(s: State, s': State, touched: set<JobId>)
    requires TimerInv(s) && TimersShrink(s, s') && s.jobs.Keys <= s'.jobs.Keys
    requires forall k :: k in s'.jobs && k !in touched ==> k in s.jobs && RecordStays(s, s', k)
    requires forall k :: k in s.jobs && k !in touched ==> ClaimStays(s, s', k)
    requires forall k :: k in s'.jobs && k in touched ==> JobTimerOk(s', k)
    requires forall h, k :: h in s'.devices && k in s'.devices[h].timers && k in touched ==> TimerOk(s', h, k)
    ensures TimerInv(s')
  {
    forall h, k | h in s'.devices && k in s'.devices[h].timers ensures TimerOk(s', h, k) {
      assert TimerOk(s, h, k);
    }
    forall k | k in s'.jobs ensures JobTimerOk(s', k) {
      if k !in touched {
        assert JobTimerOk(s, k);
        if s.jobs[k].Sync? {
          forall h ensures TaskOk(s', k, h) { assert TaskOk(s, k, h); }
        }
      }
    }
  }

  lemma SetPhaseKeepsTimers(s: State, j: JobId, p: Phase)
    requires TimerInv(s) && j in s.jobs
    requires p.Waiting? || p.SawFree? ==>
               !s.jobs[j].Confirm? && (s.jobs[j].phase.Waiting? || s.jobs[j].phase.SawFree?)
    requires s.jobs[j].Sync? && Pushed(p) ==> forall h :: h in s.jobs[j].tasks ==> Terminal(s.jobs[j].tasks[h])
    requires p.Sleeping? ==> p.until == s.now + s.timeout
    ensures TimerInv(SetPhase(s, j, p))
  {
    var s' := SetPhase(s, j, p);
    assert JobTimerOk(s, j);
    if s.jobs[j].Sync? {
      forall h ensures TaskOk(s', j, h) { assert TaskOk(s, j, h); }
    }
    forall h, k | h in s'.devices && k in s'.devices[h].timers
      ensures (k == j ==> TimerOk(s', h, k)) && s.devices[h].timers[k].deadline <= s.now + s.timeout
    {
      TimerFact(s, h, k);
    }
    KeepTimers(s, s', {j});
  }

  lemma FreeKeepsTimers(s: State, s': State, owner: JobId)
    requires TimerInv(s) && s' == s.(rows := s'.rows, releases := s'.releases, early := s'.early)
    requires s'.rows == s.rows - {owner}
    requires s'.early == s.early[owner := s.now] || (s'.early == s.early && NoTimerOf(s, owner))
    ensures TimerInv(s')
  {
    forall h, k | h in s'.devices && k in s'.devices[h].timers ensures TimerOk(s', h, k) {
      TimerFact(s, h, k);
    }
    forall k | k in s'.jobs && k == owner ensures JobTimerOk(s', k) {
      assert JobTimerOk(s, k);
      if s.jobs[k].Sync? {
        forall h ensures TaskOk(s', k, h) { assert TaskOk(s, k, h); }
      }
    }
    KeepTimers(s, s', {owner});
  }

  lemma MarkKeepsTimers(s: State, hosts: set<Host>, value: bool)
    requires TimerInv(s)
    ensures TimerInv(s.(devices := Mark(s.devices, hosts, value)))
  {
    var s' := s.(devices := Mark(s.devices, hosts, value));
    KeepTimers(s, s', {});
  }

  /** While a job pushes nobody confirms for it. */
  lemma NoConfirmYet(s: State, j: JobId, k: JobId)
    requires LockInv(s) && j in s.jobs && s.jobs[j].Sync? && s.jobs[j].phase.Running? && k in s.jobs
    ensures !(s.jobs[k].Confirm? && s.jobs[k].prev == j)
  {
    assert JobLockOk(s, k);
  }

  /** The result may be recorded for a task of this mode on this platform. */
  ghost predicate FitsTask(job: Job, os: Os, t: Task)
    requires job.Sync?
  {
    && (t.Verifying? || t == Changed(Armed) ==> job.mode == 2 && CanHold(os))
    && (t.Committing? || t == Changed(Lapsed) || t == Changed(Confirmed) ==> InTask(job.mode, os))
  }

  lemma SetTaskRecord(s: State, j: JobId, h: Host, t: Task)
    requires LockInv(s) && TimerInv(s) && Pushing(s, j, h) && FitsTask(s.jobs[j], s.devices[h].os, t)
    ensures JobTimerOk(SetTask(s, j, h, t), j)
  {
    var s' := SetTask(s, j, h, t);
    assert JobLockOk(s, j) && JobTimerOk(s, j);
    forall g ensures TaskOk(s', j, g) { assert TaskOk(s, j, g); }
  }

  lemma SetTaskKeepsTimers(s: State, j: JobId, h: Host, t: Task)
    requires LockInv(s) && TimerInv(s) && Pushing(s, j, h)
    requires MayArm(t) || j !in s.devices[h].timers
    requires FitsTask(s.jobs[j], s.devices[h].os, t)
    ensures TimerInv(SetTask(s, j, h, t))
  {
    var s' := SetTask(s, j, h, t);
    SetTaskRecord(s, j, h, t);
    forall g, k | g in s'.devices && k in s'.devices[g].timers ensures k == j ==> TimerOk(s', g, k) {
      TimerFact(s, g, k);
    }
    forall k | k in s.jobs && k != j ensures RecordStays(s, s', k) { NoConfirmYet(s, j, k); }
    KeepTimers(s, s', {j});
  }

  lemma DropTimerKeepsTimers(s: State, h: Host, j: JobId)
    requires TimerInv(s) && h in s.devices
    ensures TimerInv(SetDevice(s, h, s.devices[h].(timers := s.devices[h].timers - {j})))
  {
    var s' := SetDevice(s, h, s.devices[h].(timers := s.devices[h].timers - {j}));
    KeepTimers(s, s', {});
  }

  lemma CommitTimers(s: State, j: JobId, h: Host, reply: bool, g: Host, k: JobId)
    requires LockInv(s) && TimerInv(s) && Pushing(s, j, h) && s.jobs[j].tasks[h].Todo?
    ensures var s' := ApplyCommit(s, j, h, reply);
            g in s'.devices && k in s'.devices[g].timers ==> TimerOk(s', g, k)
  {
    assert JobLockOk(s, j);
    TimerFact(s, g, k);
  }

  lemma CommitRecords(s: State, j: JobId, h: Host, reply: bool, k: JobId)
    requires LockInv(s) && TimerInv(s) && Pushing(s, j, h) && s.jobs[j].tasks[h].Todo? && k in s.jobs
    ensures JobTimerOk(ApplyCommit(s, j, h, reply), k)
  {
    var s' := ApplyCommit(s, j, h, reply);
    assert JobTimerOk(s, k) && JobLockOk(s, k) && JobLockOk(s, j);
    if Critical(s.jobs[k]) { OneCritical(s, j, k); }
    if s.jobs[k].Sync? {
      forall g ensures TaskOk(s', k, g) { assert TaskOk(s, k, g); }
    }
  }

  lemma CommitKeepsTimers(s: State, j: JobId, h: Host, reply: bool)
    requires LockInv(s) && TimerInv(s) && Pushing(s, j, h) && s.jobs[j].tasks[h].Todo?
    ensures TimerInv(ApplyCommit(s, j, h, reply))
  {
    var s' := ApplyCommit(s, j, h, reply);
    forall g, k | g in s'.devices && k in s'.devices[g].timers ensures TimerOk(s', g, k) {
      CommitTimers(s, j, h, reply, g, k);
    }
    forall k | k in s'.jobs ensures JobTimerOk(s', k) {
      CommitRecords(s, j, h, reply, k);
    }
  }

  lemma SetCTaskKeepsTimers(s: State, c: JobId, h: Host, t: ConfirmTask)
    requires TimerInv(s) && Confirming(s, c, h)
    requires t.CDone? ==> s.jobs[c].prev !in s.devices[h].timers
    ensures TimerInv(SetCTask(s, c, h, t))
  {
    var s' := SetCTask(s, c, h, t);
    assert JobTimerOk(s, c);
    forall g, k | g in s.devices && k in s.devices[g].timers ensures k != c {
      TimerFact(s, g, k);
    }
    KeepTimers(s, s', {c});
  }

  // ----------------------------------------------------------------------- steps

  lemma UnarmedSync(s: State, j: JobId)
    requires LockInv(s) && TimerInv(s) && j in s.jobs && s.jobs[j].Sync?
    requires forall h :: h in s.jobs[j].tasks ==> !MayArm(s.jobs[j].tasks[h])
    ensures NoTimerOf(s, j)
  {
    forall h | h in s.devices ensures j !in s.devices[h].timers {
      TimerFact(s, h, j);
    }
  }

  lemma PushDoneKeepsTimers(s: State, j: JobId)
    requires LockInv(s) && TimerInv(s) && Enabled(s, PushDone(j))
    ensures TimerInv(ApplyPushDone(s, j))
    ensures ApplyPushDone(s, j).jobs[j].phase.Ended? ==> NoTimerOf(s, j)
  {
    var job := s.jobs[j];
    var ch, un := ChangedHosts(job.tasks), UnchangedHosts(job.tasks);
    assert JobTimerOk(s, j);
    if job.mode == 2 {
      SetPhaseKeepsTimers(s, j, Settled);
      MarkKeepsTimers(SetPhase(s, j, Settled), un, true);
    } else if job.mode == 1 && FailedHosts(job.tasks) != {} {
      SetPhaseKeepsTimers(s, j, Sleeping(s.now + s.timeout));
    } else if j in s.rows {
      assert NoTimerOf(s, j) by {
        forall h | h in s.devices ensures j !in s.devices[h].timers {
          TimerFact(s, h, j);
          TaskFact(s, j, h);
          assert h in job.tasks && job.tasks[h].Failed? ==> h in FailedHosts(job.tasks);
        }
      }
      ReleaseKeepsTimers(s, j, j, Ended);
      MarkKeepsTimers(ReleaseThen(s, j, j, Ended, Crashed), ch + un, true);
    } else {
      SetPhaseKeepsTimers(s, j, Crashed);
    }
  }

  lemma ReleaseKeepsTimers(s: State, owner: JobId, j: JobId, p: Phase)
    requires TimerInv(s) && j in s.jobs && owner in s.rows && NoTimerOf(s, owner) && !Live(p)
    ensures TimerInv(ReleaseThen(s, owner, j, p, Crashed))
  {
    SetPhaseKeepsTimers(s, j, p);
    FreeKeepsTimers(SetPhase(s, j, p), ReleaseThen(s, owner, j, p, Crashed), owner);
  }

  /** The sleep of a full timeout outlasts every timer armed before it. */
  lemma NoTimerAfterSleep(s: State, j: JobId)
    requires TimerInv(s) && Enabled(s, Wake(j))
    ensures forall h :: h in s.devices ==> s.devices[h].timers == map[]
  {
    assert JobTimerOk(s, j);
    forall h | h in s.devices ensures s.devices[h].timers == map[] {
      forall k ensures k !in s.devices[h].timers { TimerFact(s, h, k); }
    }
  }

  lemma WakeKeepsTimers(s: State, j: JobId)
    requires LockInv(s) && TimerInv(s) && Enabled(s, Wake(j))
    ensures TimerInv(ApplyWake(s, j))
  {
    var hosts := ChangedHosts(s.jobs[j].tasks) + UnchangedHosts(s.jobs[j].tasks);
    NoTimerAfterSleep(s, j);
    assert JobLockOk(s, j);
    ReleaseKeepsTimers(s, j, j, Ended);
    MarkKeepsTimers(ReleaseThen(s, j, j, Ended, Crashed), hosts, true);
  }

  function HandOver(s: State, j: JobId, c: JobId): State
    requires j in s.jobs && s.jobs[j].Sync?
  {
    var job := s.jobs[j];
    SetJob(SetJob(s, j, job.(phase := Handover, next := Some(c))),
           c, Confirm(j, ChangedHosts(job.tasks), Waiting(0), map[]))
  }

  lemma HandOverRecords(s: State, j: JobId, c: JobId)
    requires TimerInv(s) && Enabled(s, Conclude(j, c)) && FailedHosts(s.jobs[j].tasks) == {}
    ensures JobTimerOk(HandOver(s, j, c), j) && JobTimerOk(HandOver(s, j, c), c)
  {
    var s' := HandOver(s, j, c);
    assert JobTimerOk(s, j);
    assert forall h :: h in s.jobs[j].tasks ==> h !in FailedHosts(s.jobs[j].tasks);
    forall h ensures TaskOk(s', j, h) { assert TaskOk(s, j, h); }
  }

  lemma HandOverKeepsTimers(s: State, j: JobId, c: JobId)
    requires TimerInv(s) && Enabled(s, Conclude(j, c)) && FailedHosts(s.jobs[j].tasks) == {}
    ensures TimerInv(HandOver(s, j, c))
  {
    var s' := HandOver(s, j, c);
    HandOverRecords(s, j, c);
    forall h, k | h in s'.devices && k in s'.devices[h].timers
      ensures k != c && (k == j ==> TimerOk(s', h, k))
    {
      TimerFact(s, h, k);
    }
    KeepTimers(s, s', {j, c});
  }

  lemma NothingPushed(s: State, j: JobId)
    requires LockInv(s) && TimerInv(s) && j in s.jobs && s.jobs[j].Sync? && s.jobs[j].phase.Settled?
    requires FailedHosts(s.jobs[j].tasks) == {} && ChangedHosts(s.jobs[j].tasks) == {}
    ensures NoTimerOf(s, j)
  {
    var tasks := s.jobs[j].tasks;
    forall h | h in tasks ensures !MayArm(tasks[h]) {
      TaskFact(s, j, h);
      assert h !in FailedHosts(tasks) && h !in ChangedHosts(tasks);
    }
    UnarmedSync(s, j);
  }

  lemma ConcludeKeepsTimers(s: State, j: JobId, c: JobId)
    requires LockInv(s) && TimerInv(s) && Enabled(s, Conclude(j, c))
    ensures TimerInv(ApplyConclude(s, j, c))
    ensures ApplyConclude(s, j, c).jobs[j].phase.Ended? ==> NoTimerOf(s, j)
  {
    var job := s.jobs[j];
    if FailedHosts(job.tasks) != {} {
      forall h | h in job.tasks ensures Terminal(job.tasks[h]) { TaskFact(s, j, h); }
      SetPhaseKeepsTimers(s, j, Sleeping(s.now + s.timeout));
    } else if ChangedHosts(job.tasks) == {} {
      assert JobLockOk(s, j);
      NothingPushed(s, j);
      ReleaseKeepsTimers(s, j, j, Ended);
    } else {
      HandOverKeepsTimers(s, j, c);
    }
  }

  lemma AllConfirmedLeavesNoTimer(s: State, c: JobId)
    requires LockInv(s) && TimerInv(s) && c in s.jobs && s.jobs[c].Confirm?
    requires forall h :: h in s.jobs[c].hosts ==> h in s.jobs[c].ctasks && s.jobs[c].ctasks[h].CDone?
    ensures NoTimerOf(s, s.jobs[c].prev)
  {
    var job := s.jobs[c];
    assert JobTimerOk(s, c) && JobLockOk(s, c);
    forall h | h in s.devices ensures job.prev !in s.devices[h].timers {
      TimerFact(s, h, job.prev);
      TaskFact(s, job.prev, h);
    }
  }

  lemma ConfirmDoneKeepsTimers(s: State, c: JobId)
    requires LockInv(s) && TimerInv(s) && Enabled(s, ConfirmDone(c))
    ensures TimerInv(ApplyConfirmDone(s, c))
  {
    var job := s.jobs[c];
    var done := set h | h in job.ctasks && job.ctasks[h].CDone?;
    assert job.prev in s.rows by { assert JobLockOk(s, c); }
    if job.hosts <= done {
      AllConfirmedLeavesNoTimer(s, c);
    }
    SetPhaseKeepsTimers(s, c, Ended);
    var s1 := SetPhase(s, c, Ended);
    var s2 := s1.(rows := s.rows - {job.prev}, releases := s.releases + multiset{job.prev},
                  early := if job.hosts <= done then s.early else s.early[job.prev := s.now]);
    FreeKeepsTimers(s1, s2, job.prev);
    MarkKeepsTimers(s2, done, true);
    var s3 := s2.(devices := Mark(s2.devices, done, true));
    MarkKeepsTimers(s3, job.ctasks.Keys - done, false);
    assert ApplyConfirmDone(s, c) == s3.(devices := Mark(s3.devices, job.ctasks.Keys - done, false));
  }

  lemma EarlyReleaseKeepsTimers(s: State, a: Step)
    requires LockInv(s) && TimerInv(s) && Enabled(s, a) && (a.PushRaised? || a.ConfirmRaised?)
    ensures TimerInv(Apply(s, a))
  {
    var owner := LockId(a.j, s.jobs[a.j]);
    var p := if a.PushRaised? then Ended else Crashed;
    assert JobLockOk(s, a.j);
    SetPhaseKeepsTimers(s, a.j, p);
    FreeKeepsTimers(SetPhase(s, a.j, p), Apply(s, a), owner);
  }

  lemma TickKeepsTimers(s: State, a: Step)
    requires TimerInv(s) && Enabled(s, a) && a.Tick?
    ensures TimerInv(Apply(s, a))
  {
    var s' := Apply(s, a);
    KeepTimers(s, s', {});
  }

  /** A job as it is created: nothing taken, nothing pushed. */
  ghost predicate IsNew(s: State, job: Job) {
    && !job.Confirm? && job.phase == Waiting(0)
    && (job.Sync? ==> job.next == None && job.want.Keys <= s.devices.Keys && job.tasks == map h | h in job.want :: Todo)
  }

  lemma NewJobRecord(s: State, j: JobId, job: Job)
    requires IsNew(s, job)
    ensures JobTimerOk(SetJob(s, j, job), j)
  {
    if job.Sync? {
      forall h ensures TaskOk(SetJob(s, j, job), j, h) {}
    }
  }

  lemma NewJobKeepsTimers(s: State, j: JobId, job: Job)
    requires TimerInv(s) && j !in s.jobs && IsNew(s, job)
    ensures TimerInv(SetJob(s, j, job))
  {
    var s' := SetJob(s, j, job);
    NewJobRecord(s, j, job);
    forall g, k | g in s.devices && k in s.devices[g].timers ensures k != j { TimerFact(s, g, k); }
    KeepTimers(s, s', {j});
  }

  lemma InsertRecord(s: State, j: JobId)
    requires TimerInv(s) && Acquiring(s, j) && s.jobs[j].phase.SawFree?
    ensures JobTimerOk(ApplyInsert(s, j), j)
  {
    var s' := ApplyInsert(s, j);
    assert JobTimerOk(s, j);
    if s.jobs[j].Sync? {
      forall h ensures TaskOk(s', j, h) { assert TaskOk(s, j, h); }
    }
  }

  lemma InsertKeepsTimers(s: State, j: JobId)
    requires TimerInv(s) && Acquiring(s, j) && s.jobs[j].phase.SawFree?
    ensures TimerInv(ApplyInsert(s, j))
  {
    var s' := ApplyInsert(s, j);
    InsertRecord(s, j);
    forall g, k | g in s.devices && k in s.devices[g].timers ensures k == j ==> TimerOk(s', g, k) {
      TimerFact(s, g, k);
    }
    KeepTimers(s, s', {j});
  }

  lemma ConfirmStartKeepsTimers(s: State, a: Step)
    requires TimerInv(s) && Enabled(s, a) && (a.ConfirmStart? || a.Unsync?)
    ensures TimerInv(Apply(s, a))
  {
    var s' := Apply(s, a);
    forall g, k | g in s.devices && k in s.devices[g].timers
      ensures a.ConfirmStart? ==> k != a.j
    {
      TimerFact(s, g, k);
    }
    if a.ConfirmStart? {
      assert JobTimerOk(s, a.j);
      KeepTimers(s, s', {a.j});
    } else {
      KeepTimers(s, s', {});
    }
  }

  lemma ConfirmInTaskKeepsTimers(s: State, j: JobId, h: Host, reply: bool)
    requires LockInv(s) && TimerInv(s) && Pushing(s, j, h) && s.jobs[j].tasks[h].Committing?
    ensures TimerInv(ApplyConfirmInTask(s, j, h, reply))
  {
    TaskFact(s, j, h);
    if j in s.devices[h].timers {
      DropTimerKeepsTimers(s, h, j);
      var s1 := SetDevice(s, h, s.devices[h].(timers := s.devices[h].timers - {j}));
      QuietKeepsLock(s, s1);
      SetTaskKeepsTimers(s1, j, h, if reply then Changed(Confirmed) else Failed);
    } else {
      SetTaskKeepsTimers(s, j, h, Changed(Lapsed));
    }
  }

  lemma ConfirmHostKeepsTimers(s: State, c: JobId, h: Host, reply: bool)
    requires LockInv(s) && TimerInv(s) && Confirming(s, c, h)
    ensures TimerInv(ApplyConfirmHost(s, c, h, reply))
  {
    var prev := s.jobs[c].prev;
    assert JobTimerOk(s, c);
    if !CanHold(s.devices[h].os) {
      assert JobLockOk(s, c);
      TimerFact(s, h, prev);
      TaskFact(s, prev, h);
      SetCTaskKeepsTimers(s, c, h, CDone);
    } else if prev in s.devices[h].timers {
      DropTimerKeepsTimers(s, h, prev);
      var s1 := SetDevice(s, h, s.devices[h].(timers := s.devices[h].timers - {prev}));
      SetCTaskKeepsTimers(s1, c, h, if reply then CDone else CFailed);
    } else {
      SetCTaskKeepsTimers(s, c, h, CFailed);
    }
  }

  lemma TaskStepKeepsTimers(s: State, a: Step)
    requires LockInv(s) && TimerInv(s) && Enabled(s, a)
    requires a.EmptyDiff? || a.CommitConfig? || a.ConfirmInTask? || a.Reachable? || a.TaskFail?
    ensures TimerInv(Apply(s, a))
  {
    TaskFact(s, a.j, a.h);
    TimerFact(s, a.h, a.j);
    match a
    case EmptyDiff(j, h) => SetTaskKeepsTimers(s, j, h, Unchanged);
    case CommitConfig(j, h, reply) => CommitKeepsTimers(s, j, h, reply);
    case ConfirmInTask(j, h, reply) => ConfirmInTaskKeepsTimers(s, j, h, reply);
    case Reachable(j, h) => SetTaskKeepsTimers(s, j, h, Changed(Armed));
    case TaskFail(j, h) => SetTaskKeepsTimers(s, j, h, Failed);
  }

  lemma RefreshDoneKeepsTimers(s: State, j: JobId)
    requires LockInv(s) && TimerInv(s) && Enabled(s, RefreshDone(j))
    ensures TimerInv(Apply(s, RefreshDone(j)))
  {
    assert JobLockOk(s, j);
    forall h | h in s.devices ensures j !in s.devices[h].timers { TimerFact(s, h, j); }
    ReleaseKeepsTimers(s, j, j, Ended);
  }

  lemma ReleaseStepKeepsTimers(s: State, a: Step)
    requires LockInv(s) && TimerInv(s) && Enabled(s, a)
    requires a.PushRaised? || a.ConfirmRaised? || a.ConfirmDone? || a.RefreshDone?
    ensures TimerInv(Apply(s, a))
  {
    match a
    case ConfirmDone(c) => ConfirmDoneKeepsTimers(s, c);
    case RefreshDone(j) => RefreshDoneKeepsTimers(s, j);
    case _ => EarlyReleaseKeepsTimers(s, a);
  }

  lemma EndStepKeepsTimers(s: State, a: Step)
    requires LockInv(s) && TimerInv(s) && Enabled(s, a) && (a.PushDone? || a.Wake? || a.Conclude?)
    ensures TimerInv(Apply(s, a))
  {
    match a
    case PushDone(j) => PushDoneKeepsTimers(s, j);
    case Wake(j) => WakeKeepsTimers(s, j);
    case Conclude(j, c) => ConcludeKeepsTimers(s, j, c);
  }

  lemma JobStepKeepsTimers(s: State, a: Step)
    requires LockInv(s) && TimerInv(s) && Enabled(s, a)
    requires a.NewSync? || a.NewRefresh? || a.Insert? || a.Query? || a.Crash? || a.WaitOver?
    ensures TimerInv(Apply(s, a))
  {
    match a
    case NewSync(j, override, want) => NewJobKeepsTimers(s, j, NewSyncJob(s, override, want));
    case NewRefresh(j) => NewJobKeepsTimers(s, j, Refresh(Waiting(0)));
    case Insert(j) => InsertKeepsTimers(s, j);
    case Query(j) =>
      SetPhaseKeepsTimers(s, j, QueryPhase(s, j, s.jobs[j].phase.attempt));
    case Crash(j) => SetPhaseKeepsTimers(s, j, Crashed);
    case WaitOver(j) => SetPhaseKeepsTimers(s, j, Ended);
  }

  lemma OtherStepKeepsTimers(s: State, a: Step)
    requires LockInv(s) && TimerInv(s) && Enabled(s, a)
    requires a.ConfirmStart? || a.Unsync? || a.ConfirmHost? || a.ConfirmHostFail? || a.Tick?
    ensures TimerInv(Apply(s, a))
  {
    match a
    case ConfirmStart(_, _) => ConfirmStartKeepsTimers(s, a);
    case Unsync(_) => ConfirmStartKeepsTimers(s, a);
    case ConfirmHost(c, h, reply) => ConfirmHostKeepsTimers(s, c, h, reply);
    case ConfirmHostFail(c, h) => SetCTaskKeepsTimers(s, c, h, CFailed);
    case Tick(_, _) => TickKeepsTimers(s, a);
  }

  lemma TimerStep(s: State, a: Step)
    requires LockInv(s) && TimerInv(s) && Enabled(s, a)
    ensures TimerInv(Apply(s, a))
  {
    if a.PushDone? || a.Wake? || a.Conclude? {
      EndStepKeepsTimers(s, a);
    } else if Releasing(a) {
      ReleaseStepKeepsTimers(s, a);
    } else if a.EmptyDiff? || a.CommitConfig? || a.ConfirmInTask? || a.Reachable? || a.TaskFail? {
      TaskStepKeepsTimers(s, a);
    } else if a.ConfirmStart? || a.Unsync? || a.ConfirmHost? || a.ConfirmHostFail? || a.Tick? {
      OtherStepKeepsTimers(s, a);
    } else {
      JobStepKeepsTimers(s, a);
    }
  }
}
