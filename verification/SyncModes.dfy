/** What the confirm mode of a live sync makes of each of its steps. */
module SyncModes {
  import opened Common
  import opened Joblock
  import opened SyncProtocol
  import opened SyncLocking
  import opened SyncTimers
  import opened SyncFreshness

  predicate IsMode(m: Option<int>) { m == Some(0) || m == Some(1) || m == Some(2) }

  /** The new job has the mode asked for, else the one of the settings, else 1; anything but 0, 1 and 2 is ignored. */
  lemma NewSyncMode(s: State, j: JobId, override: Option<int>, want: map<Host, Config>)
    requires Enabled(s, NewSync(j, override, want))
    ensures var s' := Apply(s, NewSync(j, override, want));
            && s'.jobs.Keys == s.jobs.Keys + {j} && s'.jobs[j].Sync?
            && (IsMode(override) ==> s'.jobs[j].mode == override.value)
            && (!IsMode(override) && IsMode(s.setting) ==> s'.jobs[j].mode == s.setting.value)
            && (!IsMode(override) && !IsMode(s.setting) ==> s'.jobs[j].mode == 1)
  {
  }

  ghost predicate KeepsMode(s: State, s': State, j: JobId) {
    j in s.jobs && s.jobs[j].Sync? ==>
      j in s'.jobs && s'.jobs[j].Sync? && s'.jobs[j].mode == s.jobs[j].mode && s'.jobs[j].want == s.jobs[j].want
  }

  lemma ModePushStep(s: State, a: Step, j: JobId)
    requires Enabled(s, a) && (a.EmptyDiff? || a.CommitConfig? || a.ConfirmInTask? || a.Reachable? || a.TaskFail?)
    ensures KeepsMode(s, Apply(s, a), j)
  {
    var s' := Apply(s, a);
    assert s'.jobs == s.jobs[a.j := s.jobs[a.j].(tasks := s'.jobs[a.j].tasks)];
  }

  lemma ModeConfirmStep(s: State, a: Step, j: JobId)
    requires Enabled(s, a) && (a.ConfirmHost? || a.ConfirmHostFail? || a.Tick? || a.Unsync?)
    ensures KeepsMode(s, Apply(s, a), j)
  {
    var s' := Apply(s, a);
    if a.ConfirmHost? || a.ConfirmHostFail? {
      assert s'.jobs == s.jobs[a.j := s.jobs[a.j].(ctasks := s'.jobs[a.j].ctasks)];
    }
  }

  lemma ModePushDone(s: State, k: JobId, j: JobId)
    requires k in s.jobs && s.jobs[k].Sync?
    ensures KeepsMode(s, ApplyPushDone(s, k), j) && ApplyPushDone(s, k).early == s.early
  {
    PushDoneRecords(s, k);
  }

  lemma ModeWake(s: State, k: JobId, j: JobId)
    requires k in s.jobs && s.jobs[k].Sync?
    ensures KeepsMode(s, ApplyWake(s, k), j) && ApplyWake(s, k).early == s.early
  {
    assert ApplyWake(s, k).jobs == SetPhase(s, k, ApplyWake(s, k).jobs[k].phase).jobs;
  }

  lemma ModeConclude(s: State, k: JobId, c: JobId, j: JobId)
    requires k in s.jobs && s.jobs[k].Sync? && c !in s.jobs
    ensures KeepsMode(s, ApplyConclude(s, k, c), j)
  {
    if FailedHosts(s.jobs[k].tasks) == {} && ChangedHosts(s.jobs[k].tasks) != {} {
      assert ApplyConclude(s, k, c) == HandOver(s, k, c);
    } else {
      assert ApplyConclude(s, k, c).jobs == SetPhase(s, k, ApplyConclude(s, k, c).jobs[k].phase).jobs;
    }
  }

  lemma EarlyConclude(s: State, k: JobId, c: JobId)
    requires k in s.jobs && s.jobs[k].Sync? && c !in s.jobs
    ensures ApplyConclude(s, k, c).early == s.early
  {
  }

  lemma ModeConfirmDone(s: State, c: JobId, j: JobId)
    requires c in s.jobs && s.jobs[c].Confirm?
    ensures KeepsMode(s, ApplyConfirmDone(s, c), j)
  {
    assert ApplyConfirmDone(s, c).jobs == SetPhase(s, c, ApplyConfirmDone(s, c).jobs[c].phase).jobs;
  }

  lemma ModeEndStep(s: State, a: Step, j: JobId)
    requires Enabled(s, a) && (a.PushDone? || a.Conclude? || a.Wake?)
    ensures KeepsMode(s, Apply(s, a), j) && Apply(s, a).early == s.early
  {
    match a
    case PushDone(k) => ModePushDone(s, k, j);
    case Conclude(k, c) =>
      ModeConclude(s, k, c, j);
      EarlyConclude(s, k, c);
    case Wake(k) => ModeWake(s, k, j);
  }

  lemma ModeReleaseStep(s: State, a: Step, j: JobId)
    requires Enabled(s, a)
    requires a.PushRaised? || a.ConfirmRaised? || a.RefreshDone? || a.WaitOver? || a.Crash? || a.Query?
    ensures KeepsMode(s, Apply(s, a), j)
  {
    assert Apply(s, a).jobs == SetPhase(s, a.j, Apply(s, a).jobs[a.j].phase).jobs;
  }

  lemma ModeStartStep(s: State, a: Step, j: JobId)
    requires Enabled(s, a) && (a.NewSync? || a.NewRefresh? || a.Insert? || a.ConfirmStart?)
    ensures KeepsMode(s, Apply(s, a), j)
  {
  }

  lemma ModeStep(s: State, a: Step, j: JobId)
    requires Enabled(s, a)
    ensures KeepsMode(s, Apply(s, a), j)
  {
    if a.EmptyDiff? || a.CommitConfig? || a.ConfirmInTask? || a.Reachable? || a.TaskFail? {
      ModePushStep(s, a, j);
    } else if DeviceStep(a) {
      ModeConfirmStep(s, a, j);
    } else if a.PushDone? || a.Conclude? || a.Wake? {
      ModeEndStep(s, a, j);
    } else if a.ConfirmDone? {
      ModeConfirmDone(s, a.j, j);
    } else if a.NewSync? || a.NewRefresh? || a.Insert? || a.ConfirmStart? {
      ModeStartStep(s, a, j);
    } else {
      ModeReleaseStep(s, a, j);
    }
  }

  lemma {:induction false} ModeStays(s: State, run: seq<Step>, j: JobId)
    requires Legal(s, run)
    ensures KeepsMode(s, Exec(s, run), j)
    decreases |run|
  {
    if run != [] {
      ModeStep(s, run[0], j);
      ModeStays(Apply(s, run[0]), run[1..], j);
    }
  }

  /** A commit arms a timer back to what the host ran, due after the timeout, in every mode but 0. */
  lemma CommitArmsIff(s: State, j: JobId, h: Host, reply: bool)
    requires Enabled(s, CommitConfig(j, h, reply))
    ensures var d, d' := s.devices[h], Apply(s, CommitConfig(j, h, reply)).devices[h];
            && d'.running == s.jobs[j].want[h] && d'.running != d.running
            && d'.timers == if s.jobs[j].mode == 0 then d.timers
                            else d.timers[j := Timer(d.running, s.now + s.timeout)]
  {
  }

  /** Whatever happens in between, every commit of a job started without a valid mode can be undone by its timer. */
  lemma DefaultModeArms(s: State, j: JobId, override: Option<int>, want: map<Host, Config>, later: seq<Step>,
                        h: Host, reply: bool)
    requires Enabled(s, NewSync(j, override, want)) && !IsMode(override) && !IsMode(s.setting)
    requires Legal(Apply(s, NewSync(j, override, want)), later)
    requires Enabled(Exec(Apply(s, NewSync(j, override, want)), later), CommitConfig(j, h, reply))
    ensures var s1 := Exec(Apply(s, NewSync(j, override, want)), later);
            var d' := Apply(s1, CommitConfig(j, h, reply)).devices[h];
            j in d'.timers && d'.timers[j] == Timer(s1.devices[h].running, s1.now + s1.timeout)
  {
    var s0 := Apply(s, NewSync(j, override, want));
    NewSyncMode(s, j, override, want);
    ModeStays(s0, later, j);
    CommitArmsIff(Exec(s0, later), j, h, reply);
  }

  // ---------------------------------------------------------------- waiting for the row

  /** A sync asks five times, a refresh once; each then ends with an exception. */
  lemma AsksFiveTimes(s: State, j: JobId)
    requires Enabled(s, Query(j))
    ensures var n := s.jobs[j].phase.attempt;
            Apply(s, Query(j)).jobs[j].phase
            == if forall k :: k in s.rows ==> s.rows[k] != "devices" then SawFree(n)
               else if s.jobs[j].Sync? && n < 4 then Waiting(n + 1)
               else Crashed
  {
  }

  /** The unique constraints refuse the insert whenever a row of the name, or of the job, is there. */
  lemma InsertTakesIff(s: State, j: JobId)
    requires Enabled(s, Insert(j))
    ensures var s' := Apply(s, Insert(j));
            if j !in s.rows && forall k :: k in s.rows ==> s.rows[k] != "devices"
            then s'.rows == s.rows[j := "devices"] && s'.jobs[j].phase == Running
            else s'.rows == s.rows && s'.jobs[j].phase == Crashed
  {
  }

  /** A sync that takes the row remembers its devices as they are then. */
  lemma InsertRemembers(s: State, j: JobId, h: Host)
    requires LockInv(s) && TimerInv(s) && Enabled(s, Insert(j)) && s.jobs[j].Sync? && h in s.jobs[j].want
    requires j !in s.rows && j in Apply(s, Insert(j)).rows
    ensures var job := Apply(s, Insert(j)).jobs[j];
            && h in s.devices && job.Sync? && h in job.before && job.before[h] == s.devices[h]
            && h in job.tasks && job.tasks[h] == Todo
  {
    TaskFact(s, j, h);
    assert JobTimerOk(s, j);
  }

  /** A confirm job may find any part of the hosts it was scheduled for, and has all of those to confirm. */
  lemma ConfirmStartSelects(s: State, c: JobId, selected: set<Host>)
    requires c in s.jobs && s.jobs[c].Confirm? && s.jobs[c].phase.Waiting? && selected <= s.jobs[c].hosts
    ensures Enabled(s, ConfirmStart(c, selected))
    ensures var job := Apply(s, ConfirmStart(c, selected)).jobs[c];
            job.Confirm? && job.ctasks.Keys == selected && forall h :: h in selected ==> job.ctasks[h] == CTodo
  {
  }

  /** A device may lose its mark at any time, and nothing else. */
  lemma UnsyncTakesMark(s: State, h: Host)
    requires h in s.devices
    ensures Enabled(s, Unsync(h))
    ensures var s' := Apply(s, Unsync(h));
            !s'.devices[h].synchronized && s' == s.(devices := s.devices[h := s.devices[h].(synchronized := false)])
  {
  }

  /** A live job may die at any point, and a push or a confirm job raise. */
  lemma FailuresPossibleIff(s: State, j: JobId)
    ensures Enabled(s, Crash(j)) <==> j in s.jobs && s.jobs[j].phase != Ended && s.jobs[j].phase != Crashed
    ensures Enabled(s, PushRaised(j)) <==> j in s.jobs && s.jobs[j].Sync? && s.jobs[j].phase == Running
    ensures Enabled(s, ConfirmRaised(j)) <==> j in s.jobs && s.jobs[j].Confirm? && s.jobs[j].phase == Running
  {
  }

  /** The push of a host may fail until it is done. */
  lemma HostFailsIff(s: State, j: JobId, h: Host)
    requires LockInv(s) && TimerInv(s) && j in s.jobs && s.jobs[j].Sync? && s.jobs[j].phase == Running
    requires h in s.jobs[j].tasks
    ensures Enabled(s, TaskFail(j, h)) <==> s.jobs[j].tasks[h] in {Todo, Committing, Verifying}
    ensures Enabled(s, TaskFail(j, h)) ==> Apply(s, TaskFail(j, h)).jobs[j].tasks == s.jobs[j].tasks[h := Failed]
  {
    TaskFact(s, j, h);
    assert JobTimerOk(s, j);
  }

  /** A sync job goes on once its confirm job has ended, well or not. */
  lemma WaitEndsIff(s: State, j: JobId)
    requires LockInv(s) && j in s.jobs && s.jobs[j].Sync? && s.jobs[j].phase == Handover
    ensures s.jobs[j].next.Some? && s.jobs[j].next.value in s.jobs
    ensures Enabled(s, WaitOver(j)) <==> s.jobs[s.jobs[j].next.value].phase in {Ended, Crashed}
    ensures Enabled(s, WaitOver(j)) ==> Apply(s, WaitOver(j)) == SetPhase(s, j, Ended)
  {
    assert JobLockOk(s, j);
  }

  // ------------------------------------------------------------------- the push of a host

  /** EOS and JunOS leave the commit open in mode 2; elsewhere, and in mode 1, the task itself confirms it. */
  lemma CommitLeadsTo(s: State, j: JobId, h: Host, reply: bool)
    requires Enabled(s, CommitConfig(j, h, reply))
    ensures Apply(s, CommitConfig(j, h, reply)).jobs[j].tasks[h]
            == if !reply then Failed
               else if s.jobs[j].mode == 0 then Changed(Confirmed)
               else if s.jobs[j].mode == 2 && s.devices[h].os in {Eos, Junos} then Verifying
               else Committing
  {
  }

  /** The confirm in the task finds the timer of its job, or it comes too late and discards. */
  lemma ConfirmInTaskLeadsTo(s: State, j: JobId, h: Host, reply: bool)
    requires Enabled(s, ConfirmInTask(j, h, reply))
    ensures var s' := Apply(s, ConfirmInTask(j, h, reply));
            && s'.devices[h] == s.devices[h].(timers := s.devices[h].timers - {j})
            && s'.jobs[j].tasks[h] == if j !in s.devices[h].timers then Changed(Lapsed)
                                      else if reply then Changed(Confirmed) else Failed
  {
    if j !in s.devices[h].timers { assert s.devices[h].timers - {j} == s.devices[h].timers; }
  }

  /** The confirm job takes the timer of its sync job off EOS and JunOS devices, and fails where it is gone. */
  lemma ConfirmHostLeadsTo(s: State, c: JobId, h: Host, reply: bool)
    requires Enabled(s, ConfirmHost(c, h, reply))
    ensures var s', prev := Apply(s, ConfirmHost(c, h, reply)), s.jobs[c].prev;
            if s.devices[h].os in {Eos, Junos}
            then && s'.devices[h] == s.devices[h].(timers := s.devices[h].timers - {prev})
                 && (s'.jobs[c].ctasks[h] == CDone <==> prev in s.devices[h].timers && reply)
            else s'.devices[h] == s.devices[h] && s'.jobs[c].ctasks[h] == CDone
  {
    if s.jobs[c].prev !in s.devices[h].timers {
      assert s.devices[h].timers - {s.jobs[c].prev} == s.devices[h].timers;
    }
  }

  // --------------------------------------------------------------------- after the push

  predicate AnyFailed(tasks: map<Host, Task>) { exists h :: h in tasks && tasks[h] == Failed }

  predicate AnyChanged(tasks: map<Host, Task>) { exists h :: h in tasks && tasks[h].Changed? }

  /** Mode 2 leaves the row to what follows; mode 1 first sleeps if a host failed; otherwise the row goes at once. */
  lemma AfterPush(s: State, j: JobId)
    requires LockInv(s) && Enabled(s, PushDone(j))
    ensures var job, s' := s.jobs[j], Apply(s, PushDone(j));
            && s'.jobs[j].phase == (if job.mode == 2 then Settled
                                    else if job.mode == 1 && AnyFailed(job.tasks) then Sleeping(s.now + s.timeout)
                                    else Ended)
            && (j in s'.rows <==> job.mode == 2 || (job.mode == 1 && AnyFailed(job.tasks)))
  {
    assert JobLockOk(s, j);
    FailedIff(s.jobs[j].tasks);
  }

  lemma FailedIff(tasks: map<Host, Task>)
    ensures FailedHosts(tasks) != {} <==> AnyFailed(tasks)
    ensures ChangedHosts(tasks) != {} <==> AnyChanged(tasks)
  {
    if AnyFailed(tasks) {
      var h :| h in tasks && tasks[h] == Failed;
      assert h in FailedHosts(tasks);
    }
    if AnyChanged(tasks) {
      var h :| h in tasks && tasks[h].Changed?;
      assert h in ChangedHosts(tasks);
    }
  }

  /** Mode 2: a failed host lets the timers run out, no change releases, and all else is for a confirm job. */
  lemma AfterSettled(s: State, j: JobId, c: JobId)
    requires LockInv(s) && Enabled(s, Conclude(j, c))
    ensures var job, s' := s.jobs[j], Apply(s, Conclude(j, c));
            && s'.jobs[j].phase == (if AnyFailed(job.tasks) then Sleeping(s.now + s.timeout)
                                    else if AnyChanged(job.tasks) then Handover
                                    else Ended)
            && (j in s'.rows <==> AnyFailed(job.tasks) || AnyChanged(job.tasks))
            && (c in s'.jobs <==> AnyChanged(job.tasks) && !AnyFailed(job.tasks))
            && (c in s'.jobs ==>
                  && s'.jobs[c] == Confirm(j, s'.jobs[c].hosts, Waiting(0), map[]) && s'.jobs[j].next == Some(c)
                  && forall h :: h in s'.jobs[c].hosts <==> h in job.tasks && job.tasks[h].Changed?)
  {
    assert JobLockOk(s, j);
    FailedIff(s.jobs[j].tasks);
  }

  /** Which hosts a step marks: those without failure; in mode 2 those with a diff only by the confirm job. */
  lemma MarkedIff(s: State, a: Step, h: Host)
    requires LockInv(s) && Enabled(s, a)
    ensures h in Marked(s, a) <==>
            || (&& a.PushDone? && h in s.jobs[a.j].tasks
                && (s.jobs[a.j].tasks[h] == Unchanged || (s.jobs[a.j].tasks[h].Changed? && s.jobs[a.j].mode != 2))
                && !(s.jobs[a.j].mode == 1 && AnyFailed(s.jobs[a.j].tasks)))
            || (&& a.Wake? && h in s.jobs[a.j].tasks && s.jobs[a.j].mode == 1
                && (s.jobs[a.j].tasks[h] == Unchanged || s.jobs[a.j].tasks[h].Changed?))
            || (a.ConfirmDone? && h in s.jobs[a.j].ctasks && s.jobs[a.j].ctasks[h] == CDone)
  {
    if a.PushDone? { FailedIff(s.jobs[a.j].tasks); }
  }

  /** A host of the confirm job that was not confirmed loses its mark. */
  lemma UnconfirmedIsUnmarked(s: State, c: JobId, h: Host)
    requires LockInv(s) && Enabled(s, ConfirmDone(c)) && h in s.jobs[c].ctasks && h in s.devices
    ensures var s' := Apply(s, ConfirmDone(c));
            h in s'.devices && (s'.devices[h].synchronized <==> s.jobs[c].ctasks[h] == CDone)
  {
    assert JobLockOk(s, c);
  }

  predicate AllConfirmed(hosts: set<Host>, ctasks: map<Host, ConfirmTask>) {
    forall h :: h in hosts ==> h in ctasks && ctasks[h] == CDone
  }

  lemma EarlyConfirmDone(s: State, c: JobId)
    requires LockInv(s) && Enabled(s, ConfirmDone(c))
    ensures ApplyConfirmDone(s, c).early
            == if AllConfirmed(s.jobs[c].hosts, s.jobs[c].ctasks) then s.early else s.early[s.jobs[c].prev := s.now]
  {
    var done := set h | h in s.jobs[c].ctasks && s.jobs[c].ctasks[h].CDone?;
    assert JobLockOk(s, c);
    assert s.jobs[c].hosts <= done <==> AllConfirmed(s.jobs[c].hosts, s.jobs[c].ctasks);
  }

  lemma EarlyDeviceStep(s: State, a: Step)
    requires Enabled(s, a) && DeviceStep(a)
    ensures Apply(s, a).early == s.early
  {
  }

  lemma EarlyElsewhere(s: State, a: Step)
    requires Enabled(s, a) && !DeviceStep(a) && !a.PushRaised? && !a.ConfirmRaised? && !a.ConfirmDone?
    requires !a.PushDone? && !a.Conclude? && !a.Wake?
    ensures Apply(s, a).early == s.early
  {
  }

  /** A release counts as early exactly when an exception was handled or not every host of the job was confirmed. */
  lemma EarlyIff(s: State, a: Step)
    requires LockInv(s) && Enabled(s, a)
    ensures Apply(s, a).early
            == if || a.PushRaised? || a.ConfirmRaised?
                  || (a.ConfirmDone? && !AllConfirmed(s.jobs[a.j].hosts, s.jobs[a.j].ctasks))
               then s.early[LockId(a.j, s.jobs[a.j]) := s.now]
               else s.early
  {
    if a.ConfirmDone? {
      EarlyConfirmDone(s, a.j);
    } else if a.PushDone? || a.Conclude? || a.Wake? {
      ModeEndStep(s, a, a.j);
    } else if DeviceStep(a) {
      EarlyDeviceStep(s, a);
    } else if !a.PushRaised? && !a.ConfirmRaised? {
      EarlyElsewhere(s, a);
    }
  }
}
