/** What a device runs while a sync works on it, and what the synchronized flag then means. */
module SyncFreshness {
  import opened Common
  import opened Joblock
  import opened SyncProtocol
  import opened SyncLocking
  import opened SyncTimers

  /** The confirm job of sync j has dealt with host h. */
  ghost predicate Visited(s: State, j: JobId, h: Host, t: ConfirmTask)
    requires j in s.jobs && s.jobs[j].Sync?
  {
    && s.jobs[j].next.Some? && s.jobs[j].next.value in s.jobs
    && s.jobs[s.jobs[j].next.value].Confirm?
    && h in s.jobs[s.jobs[j].next.value].ctasks
    && s.jobs[s.jobs[j].next.value].ctasks[h] == t
  }

  /** No other job had a timer on the host when this one took the row. */
  ghost predicate Alone(job: Job, h: Host)
    requires job.Sync?
  {
    h in job.before && job.before[h].timers == map[]
  }

  ghost predicate FreshOk(s: State, j: JobId, h: Host)
    requires j in s.jobs && s.jobs[j].Sync? && h in s.jobs[j].tasks
  {
    var job := s.jobs[j];
    && h in s.devices && h in job.want && h in job.before && s.devices[h].timers.Keys <= {j}
    && var d, w, b, armed := s.devices[h], job.want[h], job.before[h].running, j in s.devices[h].timers;
    && (armed ==> d.running == w && d.timers[j].revertTo == b && b != w)
    && match job.tasks[h]
       case Todo => d.running == b
       case Unchanged => d.running == w == b
       case Committing => b != w && (!armed ==> d.running == b)
       case Verifying => b != w && (!armed ==> d.running == b)
       case Changed(Confirmed) => d.running == w && b != w
       case Changed(Lapsed) => d.running == b && b != w
       case Changed(Armed) =>
         && b != w
         && (Visited(s, j, h, CDone) ==> d.running == w)
         && (!armed && !Visited(s, j, h, CDone) && !Visited(s, j, h, CFailed) ==> d.running == b)
       case Failed => job.mode == 2 && CanHold(d.os) && !armed ==> d.running == b
  }

  /** The sync job behind the row is alone on every host that had no timer when it took the row. */
  ghost predicate FreshInv(s: State) {
    forall j, h :: j in s.rows && j in s.jobs && s.jobs[j].Sync? && h in s.jobs[j].tasks ==>
      h in s.jobs[j].before && (Alone(s.jobs[j], h) ==> FreshOk(s, j, h))
  }

  lemma FreshFact(s: State, j: JobId, h: Host)
    requires FreshInv(s) && j in s.rows && j in s.jobs && s.jobs[j].Sync? && h in s.jobs[j].tasks
    ensures h in s.jobs[j].before && (Alone(s.jobs[j], h) ==> FreshOk(s, j, h))
  {
  }

  ghost predicate SameRecord(s: State, s': State, j: JobId)
    requires j in s.jobs && s.jobs[j].Sync? && j in s'.jobs && s'.jobs[j].Sync?
  {
    var a, b := s.jobs[j], s'.jobs[j];
    && a.mode == b.mode && a.want == b.want && a.tasks == b.tasks && a.before == b.before
    && forall h, t :: Visited(s', j, h, t) <==> Visited(s, j, h, t)
  }

  /** The devices differ in their synchronized flag at most. */
  ghost predicate SameConfig(s: State, s': State) {
    && s'.devices.Keys == s.devices.Keys
    && forall h :: h in s.devices ==> s'.devices[h] == s.devices[h].(synchronized := s'.devices[h].synchronized)
  }

  lemma KeepFresh(s: State, s': State)
    requires FreshInv(s) && SameConfig(s, s')
    requires forall j :: j in s'.rows && j in s'.jobs && s'.jobs[j].Sync? ==>
                           j in s.rows && j in s.jobs && s.jobs[j].Sync? && SameRecord(s, s', j)
    ensures FreshInv(s')
  {
    forall j, h | j in s'.rows && j in s'.jobs && s'.jobs[j].Sync? && h in s'.jobs[j].tasks
      ensures h in s'.jobs[j].before && (Alone(s'.jobs[j], h) ==> FreshOk(s', j, h))
    {
      FreshFact(s, j, h);
      assert SameRecord(s, s', j);
    }
  }

  lemma SetPhaseKeepsFresh(s: State, j: JobId, p: Phase)
    requires FreshInv(s) && j in s.jobs
    ensures FreshInv(SetPhase(s, j, p))
  {
    KeepFresh(s, SetPhase(s, j, p));
  }

  lemma EndKeepsFresh(s: State, a: Step)
    requires LockInv(s) && Enabled(s, a) && Releasing(a)
    ensures FreshInv(Apply(s, a))
  {
    assert JobLockOk(s, a.j);
    ReleasingStepFrees(s, a);
    assert Apply(s, a).rows == map[];
  }

  lemma SoleRow(s: State, j: JobId)
    requires LockInv(s) && j in s.rows
    ensures s.rows - {j} == map[]
  {
    assert forall k :: k in s.rows ==> s.rows[k] == s.rows[j];
  }

  lemma SoleOwner(s: State, j: JobId, k: JobId)
    requires LockInv(s) && j in s.rows && k in s.rows
    ensures k == j
  {
    assert s.rows[k] == s.rows[j];
  }

  lemma PushDoneKeepsFresh(s: State, j: JobId)
    requires LockInv(s) && FreshInv(s) && Enabled(s, PushDone(j))
    ensures FreshInv(ApplyPushDone(s, j))
  {
    var s' := ApplyPushDone(s, j);
    assert JobLockOk(s, j);
    PushDoneRecords(s, j);
    if Live(s'.jobs[j].phase) {
      KeepFresh(s, s');
    } else {
      SoleRow(s, j);
      assert s'.rows == map[];
    }
  }

  lemma HandOverKeepsFresh(s: State, j: JobId, c: JobId)
    requires LockInv(s) && FreshInv(s) && Enabled(s, Conclude(j, c))
    ensures FreshInv(HandOver(s, j, c))
  {
    var s' := HandOver(s, j, c);
    assert JobLockOk(s, j);
    forall k | k in s'.rows && k in s'.jobs && s'.jobs[k].Sync?
      ensures k in s.rows && k in s.jobs && s.jobs[k].Sync? && SameRecord(s, s', k)
    {
      SoleOwner(s, j, k);
    }
    KeepFresh(s, s');
  }

  lemma ConcludeKeepsFresh(s: State, j: JobId, c: JobId)
    requires LockInv(s) && FreshInv(s) && Enabled(s, Conclude(j, c))
    ensures FreshInv(ApplyConclude(s, j, c))
  {
    assert JobLockOk(s, j);
    if FailedHosts(s.jobs[j].tasks) != {} {
      SetPhaseKeepsFresh(s, j, Sleeping(s.now + s.timeout));
    } else if ChangedHosts(s.jobs[j].tasks) == {} {
      SoleRow(s, j);
      assert ApplyConclude(s, j, c).rows == map[];
    } else {
      HandOverKeepsFresh(s, j, c);
    }
  }

  lemma NewJobKeepsFresh(s: State, j: JobId, job: Job)
    requires LockInv(s) && FreshInv(s) && j !in s.jobs
    ensures FreshInv(SetJob(s, j, job))
  {
    var s' := SetJob(s, j, job);
    forall k | k in s'.rows && k in s'.jobs && s'.jobs[k].Sync?
      ensures k in s.rows && k in s.jobs && s.jobs[k].Sync? && SameRecord(s, s', k)
    {
      if k in s.jobs { assert JobLockOk(s, k); }
    }
    KeepFresh(s, s');
  }

  lemma InsertKeepsFresh(s: State, j: JobId)
    requires LockInv(s) && TimerInv(s) && FreshInv(s) && Acquiring(s, j) && s.jobs[j].phase.SawFree?
    ensures FreshInv(ApplyInsert(s, j))
  {
    var s' := ApplyInsert(s, j);
    if NameTaken(s.rows, DEVICES) || j in s.rows {
      SetPhaseKeepsFresh(s, j, Crashed);
    } else {
      TakenOrEmpty(s);
      forall k, h | k in s'.rows && k in s'.jobs && s'.jobs[k].Sync? && h in s'.jobs[k].tasks
        ensures h in s'.jobs[k].before && (Alone(s'.jobs[k], h) ==> FreshOk(s', k, h))
      {
        TaskFact(s, j, h);
      }
    }
  }

  /** One device call of the push changes one host and how far its push has come. */
  lemma PushStepKeepsFresh(s: State, j: JobId, h: Host, d: Device, t: Task)
    requires LockInv(s) && FreshInv(s) && Pushing(s, j, h)
    requires Alone(s.jobs[j], h) ==> FreshOk(SetTask(SetDevice(s, h, d), j, h, t), j, h)
    ensures FreshInv(SetTask(SetDevice(s, h, d), j, h, t))
  {
    var s' := SetTask(SetDevice(s, h, d), j, h, t);
    assert JobLockOk(s, j);
    forall k, g | k in s'.rows && k in s'.jobs && s'.jobs[k].Sync? && g in s'.jobs[k].tasks
      ensures g in s'.jobs[k].before && (Alone(s'.jobs[k], g) ==> FreshOk(s', k, g))
    {
      SoleOwner(s, j, k);
      FreshFact(s, j, g);
    }
  }

  lemma PushContext(s: State, j: JobId, h: Host)
    requires LockInv(s) && TimerInv(s) && FreshInv(s) && Pushing(s, j, h)
    ensures j in s.rows && s.jobs[j].next == None && TaskOk(s, j, h)
    ensures j in s.devices[h].timers ==> MayArm(s.jobs[j].tasks[h])
    ensures Alone(s.jobs[j], h) ==> FreshOk(s, j, h)
  {
    assert JobLockOk(s, j);
    TaskFact(s, j, h);
    TimerFact(s, h, j);
    FreshFact(s, j, h);
  }

  lemma CommitKeepsFresh(s: State, j: JobId, h: Host, reply: bool)
    requires LockInv(s) && TimerInv(s) && FreshInv(s) && Enabled(s, CommitConfig(j, h, reply))
    ensures FreshInv(ApplyCommit(s, j, h, reply))
  {
    PushContext(s, j, h);
    var s' := ApplyCommit(s, j, h, reply);
    PushStepKeepsFresh(s, j, h, s'.devices[h], s'.jobs[j].tasks[h]);
  }

  lemma ConfirmedIsFresh(s: State, j: JobId, h: Host, reply: bool)
    requires LockInv(s) && TimerInv(s) && FreshInv(s) && Enabled(s, ConfirmInTask(j, h, reply))
    requires Alone(s.jobs[j], h)
    ensures FreshOk(ApplyConfirmInTask(s, j, h, reply), j, h)
  {
    PushContext(s, j, h);
  }

  lemma ConfirmInTaskKeepsFresh(s: State, j: JobId, h: Host, reply: bool)
    requires LockInv(s) && TimerInv(s) && FreshInv(s) && Enabled(s, ConfirmInTask(j, h, reply))
    ensures FreshInv(ApplyConfirmInTask(s, j, h, reply))
  {
    var s' := ApplyConfirmInTask(s, j, h, reply);
    assert SetDevice(s, h, s.devices[h]) == s;
    assert s' == SetTask(SetDevice(s, h, s'.devices[h]), j, h, s'.jobs[j].tasks[h]);
    if Alone(s.jobs[j], h) { ConfirmedIsFresh(s, j, h, reply); }
    PushStepKeepsFresh(s, j, h, s'.devices[h], s'.jobs[j].tasks[h]);
  }

  lemma TaskIsFresh(s: State, a: Step)
    requires LockInv(s) && TimerInv(s) && FreshInv(s) && Enabled(s, a)
    requires (a.EmptyDiff? || a.Reachable? || a.TaskFail?) && Alone(s.jobs[a.j], a.h)
    ensures FreshOk(SetTask(s, a.j, a.h, Apply(s, a).jobs[a.j].tasks[a.h]), a.j, a.h)
  {
    PushContext(s, a.j, a.h);
  }

  lemma TaskOnlyKeepsFresh(s: State, a: Step)
    requires LockInv(s) && TimerInv(s) && FreshInv(s) && Enabled(s, a)
    requires a.EmptyDiff? || a.Reachable? || a.TaskFail?
    ensures FreshInv(Apply(s, a))
  {
    assert SetDevice(s, a.h, s.devices[a.h]) == s;
    if Alone(s.jobs[a.j], a.h) { TaskIsFresh(s, a); }
    PushStepKeepsFresh(s, a.j, a.h, s.devices[a.h], Apply(s, a).jobs[a.j].tasks[a.h]);
  }

  /** One device call of the confirm job. */
  lemma ConfirmStepKeepsFresh(s: State, c: JobId, h: Host, d: Device, t: ConfirmTask)
    requires LockInv(s) && TimerInv(s) && FreshInv(s) && Confirming(s, c, h) && !t.CTodo?
    requires d == s.devices[h].(timers := d.timers)
    requires d.timers == s.devices[h].timers || d.timers == s.devices[h].timers - {s.jobs[c].prev}
    requires t.CDone? ==> s.jobs[c].prev in s.devices[h].timers || !CanHold(s.devices[h].os)
    ensures FreshInv(SetCTask(SetDevice(s, h, d), c, h, t))
  {
    var s', j := SetCTask(SetDevice(s, h, d), c, h, t), s.jobs[c].prev;
    assert JobLockOk(s, c) && JobTimerOk(s, c);
    TaskFact(s, j, h);
    forall k, g | k in s'.rows && k in s'.jobs && s'.jobs[k].Sync? && g in s'.jobs[k].tasks
      ensures g in s'.jobs[k].before && (Alone(s'.jobs[k], g) ==> FreshOk(s', k, g))
    {
      SoleOwner(s, j, k);
      FreshFact(s, j, g);
      assert g != h ==> forall u :: Visited(s', j, g, u) <==> Visited(s, j, g, u);
    }
  }

  lemma ConfirmHostKeepsFresh(s: State, c: JobId, h: Host, reply: bool)
    requires LockInv(s) && TimerInv(s) && FreshInv(s) && Confirming(s, c, h)
    ensures FreshInv(ApplyConfirmHost(s, c, h, reply))
  {
    var d, prev := s.devices[h], s.jobs[c].prev;
    assert SetDevice(s, h, d) == s;
    if !CanHold(d.os) {
      ConfirmStepKeepsFresh(s, c, h, d, CDone);
    } else if prev in d.timers {
      ConfirmStepKeepsFresh(s, c, h, d.(timers := d.timers - {prev}), if reply then CDone else CFailed);
    } else {
      ConfirmStepKeepsFresh(s, c, h, d, CFailed);
    }
  }

  lemma ConfirmStartKeepsFresh(s: State, c: JobId, selected: set<Host>)
    requires LockInv(s) && TimerInv(s) && FreshInv(s) && Enabled(s, ConfirmStart(c, selected))
    ensures FreshInv(Apply(s, ConfirmStart(c, selected)))
  {
    var s' := Apply(s, ConfirmStart(c, selected));
    assert JobLockOk(s, c) && JobTimerOk(s, c);
    forall k, h | k in s'.rows && k in s'.jobs && s'.jobs[k].Sync? && h in s'.jobs[k].tasks
      ensures h in s'.jobs[k].before && (Alone(s'.jobs[k], h) ==> FreshOk(s', k, h))
    {
      assert JobLockOk(s, k);
      FreshFact(s, k, h);
    }
  }

  lemma VisitedDoneUnarmed(s: State, j: JobId, h: Host)
    requires LockInv(s) && TimerInv(s) && j in s.jobs && s.jobs[j].Sync? && h in s.devices
    ensures Visited(s, j, h, CDone) ==> j !in s.devices[h].timers
  {
    assert JobLockOk(s, j);
    if s.jobs[j].next.Some? { assert JobTimerOk(s, s.jobs[j].next.value); }
  }

  lemma TickKeepsHostFresh(s: State, s': State, j: JobId, h: Host, to: nat, running: Config)
    requires j in s.jobs && s.jobs[j].Sync? && h in s.jobs[j].tasks && FreshOk(s, j, h)
    requires s'.jobs == s.jobs && h in s'.devices && s'.devices[h] == Advance(s.devices[h], to, running)
    requires Fires(s.devices[h], to, running)
    requires j in s.devices[h].timers ==> MayArm(s.jobs[j].tasks[h]) && !Visited(s, j, h, CDone)
    ensures FreshOk(s', j, h)
  {
    assert forall t :: Visited(s', j, h, t) <==> Visited(s, j, h, t);
  }

  lemma TickKeepsFresh(s: State, to: nat, running: map<Host, Config>)
    requires LockInv(s) && TimerInv(s) && FreshInv(s) && Enabled(s, Tick(to, running))
    ensures FreshInv(Apply(s, Tick(to, running)))
  {
    var s' := Apply(s, Tick(to, running));
    forall k, h | k in s'.rows && k in s'.jobs && s'.jobs[k].Sync? && h in s'.jobs[k].tasks
      ensures h in s'.jobs[k].before && (Alone(s'.jobs[k], h) ==> FreshOk(s', k, h))
    {
      FreshFact(s, k, h);
      if Alone(s.jobs[k], h) {
        TimerFact(s, h, k);
        VisitedDoneUnarmed(s, k, h);
        TickKeepsHostFresh(s, s', k, h, to, running[h]);
      }
    }
  }

  lemma ConfirmHostFailKeepsFresh(s: State, c: JobId, h: Host)
    requires LockInv(s) && TimerInv(s) && FreshInv(s) && Confirming(s, c, h)
    ensures FreshInv(SetCTask(s, c, h, CFailed))
  {
    assert SetDevice(s, h, s.devices[h]) == s;
    ConfirmStepKeepsFresh(s, c, h, s.devices[h], CFailed);
  }

  lemma UnsyncKeepsFresh(s: State, h: Host)
    requires LockInv(s) && FreshInv(s) && h in s.devices
    ensures FreshInv(SetDevice(s, h, s.devices[h].(synchronized := false)))
  {
    KeepFresh(s, SetDevice(s, h, s.devices[h].(synchronized := false)));
  }

  lemma JobStepKeepsFresh(s: State, a: Step)
    requires LockInv(s) && TimerInv(s) && FreshInv(s) && Enabled(s, a)
    requires || a.NewSync? || a.NewRefresh? || a.Insert? || a.PushDone? || a.Conclude?
             || a.WaitOver? || a.Crash? || a.Query?
    ensures FreshInv(Apply(s, a))
  {
    match a
    case NewSync(j, override, want) => NewJobKeepsFresh(s, j, NewSyncJob(s, override, want));
    case NewRefresh(j) => NewJobKeepsFresh(s, j, Refresh(Waiting(0)));
    case Insert(j) => InsertKeepsFresh(s, j);
    case PushDone(j) => PushDoneKeepsFresh(s, j);
    case Conclude(j, c) => ConcludeKeepsFresh(s, j, c);
    case WaitOver(j) => SetPhaseKeepsFresh(s, j, Ended);
    case Crash(j) => SetPhaseKeepsFresh(s, j, Crashed);
    case Query(j) => SetPhaseKeepsFresh(s, j, QueryPhase(s, j, s.jobs[j].phase.attempt));
  }

  lemma OtherStepKeepsFresh(s: State, a: Step)
    requires LockInv(s) && TimerInv(s) && FreshInv(s) && Enabled(s, a)
    requires || a.CommitConfig? || a.ConfirmInTask? || a.ConfirmStart? || a.ConfirmHost? || a.ConfirmHostFail?
             || a.Tick? || a.Unsync?
    ensures FreshInv(Apply(s, a))
  {
    match a
    case CommitConfig(j, h, reply) => CommitKeepsFresh(s, j, h, reply);
    case ConfirmInTask(j, h, reply) => ConfirmInTaskKeepsFresh(s, j, h, reply);
    case ConfirmStart(c, selected) => ConfirmStartKeepsFresh(s, c, selected);
    case ConfirmHost(c, h, reply) => ConfirmHostKeepsFresh(s, c, h, reply);
    case ConfirmHostFail(c, h) => ConfirmHostFailKeepsFresh(s, c, h);
    case Tick(to, running) => TickKeepsFresh(s, to, running);
    case Unsync(h) => UnsyncKeepsFresh(s, h);
  }

  lemma FreshStep(s: State, a: Step)
    requires LockInv(s) && TimerInv(s) && FreshInv(s) && Enabled(s, a)
    ensures FreshInv(Apply(s, a))
  {
    if Releasing(a) {
      EndKeepsFresh(s, a);
    } else if a.EmptyDiff? || a.Reachable? || a.TaskFail? {
      TaskOnlyKeepsFresh(s, a);
    } else if a.CommitConfig? || a.ConfirmInTask? || DeviceStep(a) || a.ConfirmStart? {
      OtherStepKeepsFresh(s, a);
    } else {
      JobStepKeepsFresh(s, a);
    }
  }

  // ------------------------------------------------------------- over whole runs

  ghost predicate Inv(s: State) { LockInv(s) && TimerInv(s) && FreshInv(s) }

  lemma {:induction false} InvAlongRun(s: State, run: seq<Step>)
    requires Inv(s) && Legal(s, run)
    ensures Inv(Exec(s, run))
    decreases |run|
  {
    if run != [] {
      LockStep(s, run[0]);
      TimerStep(s, run[0]);
      FreshStep(s, run[0]);
      InvAlongRun(Apply(s, run[0]), run[1..]);
    }
  }

  lemma InvFromStart(s0: State, run: seq<Step>)
    requires Init(s0) && Legal(s0, run)
    ensures Inv(Exec(s0, run))
  {
    InvAlongRun(s0, run);
  }

  /** The hosts a step sets synchronized to true. */
  ghost function Marked(s: State, a: Step): set<Host>
    requires Enabled(s, a)
  {
    match a
    case PushDone(j) =>
      var tasks := s.jobs[j].tasks;
      if s.jobs[j].mode == 2 then UnchangedHosts(tasks)
      else if s.jobs[j].mode == 1 && FailedHosts(tasks) != {} then {}
      else ChangedHosts(tasks) + UnchangedHosts(tasks)
    case Wake(j) =>
      if s.jobs[j].mode == 1 then ChangedHosts(s.jobs[j].tasks) + UnchangedHosts(s.jobs[j].tasks) else {}
    case ConfirmDone(c) => set h | h in s.jobs[c].ctasks && s.jobs[c].ctasks[h].CDone?
    case _ => {}
  }

  /** The flags of exactly these hosts are set between the two states, and no other flag is. */
  ghost predicate SetsFlags(s: State, s': State, hosts: set<Host>, h: Host)
    requires h in s.devices
  {
    && h in s'.devices
    && (h in hosts ==> s'.devices[h].synchronized)
    && (h !in hosts && s'.devices[h].synchronized ==> s.devices[h].synchronized)
  }

  lemma PushDoneSetsFlags(s: State, j: JobId, h: Host)
    requires Enabled(s, PushDone(j)) && j in s.rows && h in s.devices
    ensures SetsFlags(s, ApplyPushDone(s, j), Marked(s, PushDone(j)), h)
  {
  }

  lemma WakeSetsFlags(s: State, j: JobId, h: Host)
    requires Enabled(s, Wake(j)) && j in s.rows && h in s.devices
    ensures SetsFlags(s, ApplyWake(s, j), Marked(s, Wake(j)), h)
  {
  }

  lemma ConfirmDoneSetsFlags(s: State, c: JobId, h: Host)
    requires Enabled(s, ConfirmDone(c)) && s.jobs[c].prev in s.rows && h in s.devices
    ensures SetsFlags(s, ApplyConfirmDone(s, c), Marked(s, ConfirmDone(c)), h)
  {
  }

  lemma OtherStepSetsNoFlag(s: State, a: Step, h: Host)
    requires Enabled(s, a) && h in s.devices && !a.PushDone? && !a.Wake? && !a.ConfirmDone?
    ensures SetsFlags(s, Apply(s, a), {}, h)
  {
  }

  lemma MarkingStep(s: State, a: Step, h: Host)
    requires Enabled(s, a) && h in s.devices && (a.PushDone? || a.Wake? || a.ConfirmDone?)
    requires LockId(a.j, s.jobs[a.j]) in s.rows
    ensures SetsFlags(s, Apply(s, a), Marked(s, a), h)
  {
    match a
    case PushDone(j) => PushDoneSetsFlags(s, j, h);
    case Wake(j) => WakeSetsFlags(s, j, h);
    case ConfirmDone(c) => ConfirmDoneSetsFlags(s, c, h);
  }

  lemma MarkedStep(s: State, a: Step, h: Host)
    requires Enabled(s, a) && h in s.devices
    requires a.PushDone? || Releasing(a) ==> LockId(a.j, s.jobs[a.j]) in s.rows
    ensures SetsFlags(s, Apply(s, a), Marked(s, a), h)
  {
    if a.PushDone? || a.Wake? || a.ConfirmDone? {
      MarkingStep(s, a, h);
    } else {
      OtherStepSetsNoFlag(s, a, h);
    }
  }

  /** Marked is exact: no other step and no other host ever becomes synchronized. */
  lemma MarkedIsExact(s0: State, run: seq<Step>, a: Step, h: Host)
    requires Init(s0) && Legal(s0, run) && Enabled(Exec(s0, run), a)
    requires h in Exec(s0, run).devices
    ensures var s := Exec(s0, run); var s' := Apply(s, a);
            && h in s'.devices
            && (h in Marked(s, a) ==> s'.devices[h].synchronized)
            && (h !in Marked(s, a) && s'.devices[h].synchronized ==> s.devices[h].synchronized)
  {
    if a.PushDone? || Releasing(a) { ReleaseNeverFails(s0, run, a); }
    MarkedStep(Exec(s0, run), a, h);
  }

  /** Whatever sync job or confirm job marks a host, no timer of that job is left on it. */
  lemma MarkedHasNoOwnTimer(s0: State, run: seq<Step>, a: Step, h: Host)
    requires Init(s0) && Legal(s0, run) && Enabled(Exec(s0, run), a)
    requires h in Marked(Exec(s0, run), a) && h in Exec(s0, run).devices
    ensures var s := Exec(s0, run); var s' := Apply(s, a);
            h in s'.devices && LockId(a.j, s.jobs[a.j]) !in s'.devices[h].timers
  {
    InvFromStart(s0, run);
    var s := Exec(s0, run);
    var j := LockId(a.j, s.jobs[a.j]);
    TimerFact(s, h, j);
    TaskFact(s, j, h);
    assert JobTimerOk(s, a.j) && JobLockOk(s, a.j);
    MarkKeepsTimerSets(s, a, h);
  }

  lemma PushDoneKeepsConfig(s: State, j: JobId)
    requires j in s.jobs && s.jobs[j].Sync?
    ensures SameConfig(s, ApplyPushDone(s, j))
  {
  }

  lemma WakeKeepsConfig(s: State, j: JobId)
    requires j in s.jobs && s.jobs[j].Sync?
    ensures SameConfig(s, ApplyWake(s, j))
  {
  }

  lemma ConcludeKeepsConfig(s: State, j: JobId, c: JobId)
    requires j in s.jobs && s.jobs[j].Sync?
    ensures SameConfig(s, ApplyConclude(s, j, c))
  {
  }

  lemma ConfirmDoneKeepsConfig(s: State, c: JobId)
    requires c in s.jobs && s.jobs[c].Confirm?
    ensures SameConfig(s, ApplyConfirmDone(s, c))
  {
  }

  lemma EndKeepsConfig(s: State, a: Step)
    requires Enabled(s, a) && (a.PushDone? || a.Conclude? || Releasing(a))
    ensures SameConfig(s, Apply(s, a))
  {
    match a
    case PushDone(j) => PushDoneKeepsConfig(s, j);
    case Conclude(j, c) => ConcludeKeepsConfig(s, j, c);
    case Wake(j) => WakeKeepsConfig(s, j);
    case ConfirmDone(c) => ConfirmDoneKeepsConfig(s, c);
    case _ =>
  }

  lemma MarkKeepsTimerSets(s: State, a: Step, h: Host)
    requires Enabled(s, a) && (a.PushDone? || Releasing(a)) && h in s.devices
    ensures h in Apply(s, a).devices
    ensures Apply(s, a).devices[h].timers == s.devices[h].timers
    ensures Apply(s, a).devices[h].running == s.devices[h].running
  {
    EndKeepsConfig(s, a);
  }
}
