/** What a live sync promises over whole runs. */
module SyncTheorems {
  import opened Common
  import opened Joblock
  import opened SyncProtocol
  import opened SyncLocking
  import opened SyncTimers
  import opened SyncFreshness

  /** A timer of a job without a row can only stem from a row that was released early. */
  lemma OrphanTimersComeFromEarlyReleases(s0: State, run: seq<Step>, h: Host, j: JobId)
    requires Init(s0) && Legal(s0, run)
    requires var s := Exec(s0, run); h in s.devices && j in s.devices[h].timers
    ensures var s := Exec(s0, run);
            && s.now < s.devices[h].timers[j].deadline <= s.now + s.timeout
            && (j in s.rows || j in s.early)
  {
    InvFromStart(s0, run);
    TimerFact(Exec(s0, run), h, j);
  }

  lemma ReleasedMeansEnded(s: State, a: Step)
    requires Enabled(s, a) && (a.PushDone? || a.Conclude?)
    requires a.j in s.rows && a.j !in Apply(s, a).rows
    ensures Apply(s, a).jobs[a.j].phase.Ended?
  {
  }

  lemma OwnReleaseIsClean(s: State, a: Step)
    requires LockInv(s) && TimerInv(s) && Enabled(s, a) && (a.PushDone? || a.Conclude? || a.Wake?)
    requires a.j in s.rows && a.j !in Apply(s, a).rows
    ensures NoTimerOf(s, a.j)
  {
    if a.Wake? {
      NoTimerAfterSleep(s, a.j);
    } else {
      ReleasedMeansEnded(s, a);
      if a.PushDone? { PushDoneKeepsTimers(s, a.j); } else { ConcludeKeepsTimers(s, a.j, a.c); }
    }
  }

  lemma EndStepKeepsTimerSets(s: State, a: Step)
    requires Enabled(s, a) && (a.PushDone? || a.Conclude? || a.Wake?)
    ensures Apply(s, a).devices.Keys == s.devices.Keys
    ensures forall h :: h in s.devices ==> Apply(s, a).devices[h].timers == s.devices[h].timers
  {
    EndKeepsConfig(s, a);
  }

  /**
   When sync_devices itself lets the row go after a completed run, none of its commits is
   still waiting for a confirm; after a sleep no timer at all is left, whoever armed it.
   */
  lemma NoTimerOutlivesOwnRelease(s0: State, run: seq<Step>, a: Step)
    requires Init(s0) && Legal(s0, run) && Enabled(Exec(s0, run), a)
    requires a.PushDone? || a.Conclude? || a.Wake?
    requires a.j in Exec(s0, run).rows && a.j !in Apply(Exec(s0, run), a).rows
    ensures var s' := Apply(Exec(s0, run), a);
            forall h :: h in s'.devices ==>
              a.j !in s'.devices[h].timers && (a.Wake? ==> s'.devices[h].timers == map[])
  {
    InvFromStart(s0, run);
    var s := Exec(s0, run);
    OwnReleaseIsClean(s, a);
    EndStepKeepsTimerSets(s, a);
    if a.Wake? { NoTimerAfterSleep(s, a.j); }
  }

  /** Some step of the run commits a configuration on the host. */
  predicate Touches(run: seq<Step>, h: Host) {
    run != [] && ((run[0].CommitConfig? && run[0].h == h) || Touches(run[1..], h))
  }

  /** Every timer armed on the device leads back to what it runs. */
  ghost predicate Harmless(d: Device) {
    forall k :: k in d.timers ==> d.timers[k].revertTo == d.running
  }

  /** Without a commit on it a host with harmless timers, or none, keeps its configuration. */
  lemma {:induction false} HarmlessStaysPut(s: State, run: seq<Step>, h: Host)
    requires Legal(s, run) && !Touches(run, h)
    requires h in s.devices && Harmless(s.devices[h])
    ensures var s' := Exec(s, run);
            && h in s'.devices && s'.devices[h].running == s.devices[h].running
            && s'.devices[h].timers.Keys <= s.devices[h].timers.Keys
    decreases |run|
  {
    if run != [] {
      HarmlessStep(s, run[0], h);
      HarmlessStaysPut(Apply(s, run[0]), run[1..], h);
    }
  }

  lemma HarmlessStep(s: State, a: Step, h: Host)
    requires Enabled(s, a) && !(a.CommitConfig? && a.h == h)
    requires h in s.devices && Harmless(s.devices[h])
    ensures var s' := Apply(s, a);
            && h in s'.devices && s'.devices[h].running == s.devices[h].running
            && s'.devices[h].timers.Keys <= s.devices[h].timers.Keys && Harmless(s'.devices[h])
  {
    if a.Tick? {
      assert Fires(s.devices[h], a.to, a.running[h]);
    } else if a.PushDone? || a.Conclude? || Releasing(a) {
      EndKeepsConfig(s, a);
    }
  }

  /** Something other than a commit can still change what the host runs. */
  ghost predicate CanChange(s: State, h: Host)
    requires h in s.devices
  {
    exists later :: Legal(s, later) && !Touches(later, h) && Changes(s, later, h)
  }

  ghost predicate Changes(s: State, later: seq<Step>, h: Host)
    requires h in s.devices && Legal(s, later)
  {
    var s' := Exec(s, later);
    h in s'.devices && s'.devices[h].running != s.devices[h].running
  }

  /** What a device may run when the time has come. */
  ghost function SomeOutcome(d: Device, to: nat): (running: Config)
    ensures Fires(d, to, running)
  {
    if j :| j in d.timers && Expired(d.timers[j], to) then d.timers[j].revertTo else d.running
  }

  lemma OneStep(s: State, a: Step, h: Host)
    requires Enabled(s, a) && !a.CommitConfig?
    ensures Legal(s, [a]) && Exec(s, [a]) == Apply(s, a) && !Touches([a], h)
  {
    assert [a][1..] == [];
  }

  lemma TickReaches(s: State, h: Host, to: nat, running: map<Host, Config>)
    requires Enabled(s, Tick(to, running)) && h in s.devices && running[h] != s.devices[h].running
    ensures CanChange(s, h)
  {
    OneStep(s, Tick(to, running), h);
    assert Changes(s, [Tick(to, running)], h);
  }

  lemma TimerCanFire(s: State, h: Host, k: JobId)
    requires TimerInv(s) && h in s.devices && k in s.devices[h].timers
    requires s.devices[h].timers[k].revertTo != s.devices[h].running
    ensures CanChange(s, h)
  {
    TimerFact(s, h, k);
    var to, revertTo := s.devices[h].timers[k].deadline, s.devices[h].timers[k].revertTo;
    var running := map g | g in s.devices :: if g == h then revertTo else SomeOutcome(s.devices[g], to);
    assert Expired(s.devices[h].timers[k], to);
    TickReaches(s, h, to, running);
  }

  /** A host can change by itself exactly when a timer on it leads to another configuration. */
  lemma CanChangeIff(s: State, h: Host)
    requires TimerInv(s) && h in s.devices
    ensures CanChange(s, h) <==> !Harmless(s.devices[h])
  {
    if Harmless(s.devices[h]) {
      forall later | Legal(s, later) && !Touches(later, h) ensures !Changes(s, later, h) {
        HarmlessStaysPut(s, later, h);
      }
    } else {
      var k :| k in s.devices[h].timers && s.devices[h].timers[k].revertTo != s.devices[h].running;
      TimerCanFire(s, h, k);
    }
  }

  /**
   After any step of any run that marks a host: a timer can undo the mark exactly when one that
   another job armed is left on the host and leads to another configuration.
   */
  lemma MarkCanBeUndoneIff(s0: State, run: seq<Step>, a: Step, h: Host)
    requires Init(s0) && Legal(s0, run) && Enabled(Exec(s0, run), a)
    requires h in Marked(Exec(s0, run), a) && h in Exec(s0, run).devices
    ensures var s := Exec(s0, run); var s' := Apply(s, a);
            && h in s'.devices && s'.devices[h].synchronized
            && (CanChange(s', h) <==>
                  exists k :: && k in s'.devices[h].timers && k != LockId(a.j, s.jobs[a.j])
                              && s'.devices[h].timers[k].revertTo != s'.devices[h].running)
  {
    InvFromStart(s0, run);
    var s := Exec(s0, run);
    MarkedIsExact(s0, run, a, h);
    MarkedHasNoOwnTimer(s0, run, a, h);
    TimerStep(s, a);
    CanChangeIff(Apply(s, a), h);
  }

  /** If no row was released early during the last timeout, the job that takes the row is alone on its hosts. */
  lemma AloneAfterQuietTimeout(s0: State, run: seq<Step>, j: JobId, h: Host)
    requires Init(s0) && Legal(s0, run) && Enabled(Exec(s0, run), Insert(j))
    requires var s := Exec(s0, run);
             && s.jobs[j].Sync? && h in s.jobs[j].want && j in Apply(s, Insert(j)).rows && j !in s.rows
             && forall k :: k in s.early ==> s.early[k] + s.timeout <= s.now
    ensures Apply(Exec(s0, run), Insert(j)).jobs[j].Sync? && Alone(Apply(Exec(s0, run), Insert(j)).jobs[j], h)
  {
    InvFromStart(s0, run);
    var s := Exec(s0, run);
    TakenOrEmpty(s);
    TaskFact(s, j, h);
    assert JobTimerOk(s, j);
    forall k ensures k !in s.devices[h].timers { TimerFact(s, h, k); }
  }

  lemma MarkedNow(s: State, a: Step, h: Host)
    requires Inv(s) && Enabled(s, a) && h in Marked(s, a) && h in s.devices
    ensures var j := LockId(a.j, s.jobs[a.j]);
            && j in s.rows && j in s.jobs && s.jobs[j].Sync? && h in s.jobs[j].tasks && h in s.jobs[j].want
            && h in s.jobs[j].before
            && (Alone(s.jobs[j], h) ==>
                  && s.devices[h].timers == map[]
                  && (s.devices[h].running == s.jobs[j].want[h] <==> s.jobs[j].tasks[h] != Changed(Lapsed)))
  {
    var j := LockId(a.j, s.jobs[a.j]);
    assert JobTimerOk(s, a.j) && JobLockOk(s, a.j);
    TaskFact(s, j, h);
    TimerFact(s, h, j);
    VisitedDoneUnarmed(s, j, h);
    FreshFact(s, j, h);
  }

  /**
   A host that had no timer when the job took the row and is now marked synchronized carries no
   timer, keeps its configuration until the next commit on it, and runs what the job wanted
   exactly when its confirm did not come after the deadline.
   */
  lemma MarkedIsFresh(s0: State, run: seq<Step>, a: Step, h: Host, later: seq<Step>)
    requires Init(s0) && Legal(s0, run) && Enabled(Exec(s0, run), a)
    requires h in Marked(Exec(s0, run), a) && h in Exec(s0, run).devices
    requires Legal(Apply(Exec(s0, run), a), later) && !Touches(later, h)
    ensures var s, s' := Exec(s0, run), Exec(Apply(Exec(s0, run), a), later);
            var j := LockId(a.j, s.jobs[a.j]);
            && j in s.jobs && s.jobs[j].Sync? && h in s.jobs[j].tasks && h in s.jobs[j].want
            && h in s.jobs[j].before && h in s'.devices
            && (Alone(s.jobs[j], h) ==>
                  && s'.devices[h].timers == map[]
                  && (s'.devices[h].running == s.jobs[j].want[h] <==> s.jobs[j].tasks[h] != Changed(Lapsed)))
  {
    InvFromStart(s0, run);
    MarkedNow(Exec(s0, run), a, h);
    MarkKeepsTimerSets(Exec(s0, run), a, h);
    DevicesStay(Apply(Exec(s0, run), a), later, h);
    var s1 := Apply(Exec(s0, run), a);
    if s1.devices[h].timers == map[] { HarmlessStaysPut(s1, later, h); }
  }

  lemma {:induction false} DevicesStay(s: State, run: seq<Step>, h: Host)
    requires Legal(s, run) && h in s.devices
    ensures h in Exec(s, run).devices
    decreases |run|
  {
    if run != [] { DevicesStay(Apply(s, run[0]), run[1..], h); }
  }

  /**
   Mode 2 with a failed host: when the job wakes up and releases the row, every host whose
   platform can hold a commit and that had no timer when the row was taken is back on the
   configuration it had then; hosts on other platforms were confirmed on their own and keep the new one.
   */
  lemma ModeTwoRollsBack(s0: State, run: seq<Step>, j: JobId, h: Host)
    requires Init(s0) && Legal(s0, run) && Enabled(Exec(s0, run), Wake(j))
    requires var s := Exec(s0, run); s.jobs[j].mode == 2 && h in s.jobs[j].tasks
    ensures var s := Exec(s0, run); var s' := Apply(s, Wake(j));
            && h in s'.devices && h in s.jobs[j].before && h in s.jobs[j].want
            && j !in s'.rows && s'.devices[h].timers == map[]
            && (Alone(s.jobs[j], h) ==>
                  && (CanHold(s.devices[h].os) ==> s'.devices[h].running == s.jobs[j].before[h].running)
                  && (s.jobs[j].tasks[h] == Changed(Confirmed) ==> s'.devices[h].running == s.jobs[j].want[h]))
  {
    InvFromStart(s0, run);
    var s := Exec(s0, run);
    assert JobLockOk(s, j);
    TaskFact(s, j, h);
    NoTimerAfterSleep(s, j);
    FreshFact(s, j, h);
    MarkKeepsTimerSets(s, Wake(j), h);
  }

  /**
   When the confirm job lets the row go, a host of the job can still roll back exactly when the
   revert timer of the sync job is left on it; a host that was confirmed has none.
   */
  lemma RollsBackAfterConfirmIff(s0: State, run: seq<Step>, c: JobId, h: Host)
    requires Init(s0) && Legal(s0, run) && Enabled(Exec(s0, run), ConfirmDone(c))
    requires h in Exec(s0, run).jobs[c].hosts
    ensures var s := Exec(s0, run); var s' := Apply(s, ConfirmDone(c));
            var job := s.jobs[c];
            && job.prev in s.jobs && s.jobs[job.prev].Sync? && h in s.jobs[job.prev].before && h in s'.devices
            && (job.prev in s'.devices[h].timers ==> !(h in job.ctasks && job.ctasks[h].CDone?))
            && (Alone(s.jobs[job.prev], h) ==> (CanChange(s', h) <==> job.prev in s'.devices[h].timers))
  {
    InvFromStart(s0, run);
    var s := Exec(s0, run);
    var s', j := Apply(s, ConfirmDone(c)), s.jobs[c].prev;
    assert JobTimerOk(s, c) && JobLockOk(s, c);
    TaskFact(s, j, h);
    FreshFact(s, j, h);
    MarkKeepsTimerSets(s, ConfirmDone(c), h);
    TimerStep(s, ConfirmDone(c));
    CanChangeIff(s', h);
    if Alone(s.jobs[j], h) && j in s'.devices[h].timers {
      assert s'.devices[h].timers[j].revertTo != s'.devices[h].running;
    }
  }
}
