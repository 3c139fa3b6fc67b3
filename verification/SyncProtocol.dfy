/**
 Live syncs, confirm jobs and repository refreshes as one transition system.
 A state holds the joblock table, the jobs, the devices with their armed revert
 timers, and the clock. Each label of Step is one transaction or one device call.
 */
module SyncProtocol {
  import opened Common
  import opened Joblock

  type Host = string
  type Config = string
  type Mode = n: nat | n <= 2

  const DEVICES := "devices"
  const MAX_ATTEMPTS := 5

  datatype Os = Eos | Junos | OtherOs

  datatype Timer = Timer(revertTo: Config, deadline: nat)

  /** One timer per configure session; a session is named after the job that opened it. */
  datatype Device = Device(os: Os, running: Config, timers: map<JobId, Timer>, synchronized: bool)

  datatype Commit = Confirmed | Armed | Lapsed

  /** How far the push of one host has come. */
  datatype Task = Todo | Committing | Verifying | Unchanged | Changed(commit: Commit) | Failed

  datatype ConfirmTask = CTodo | CDone | CFailed

  datatype Phase =
    | Waiting(attempt: nat)
    | SawFree(attempt: nat)
    | Running
    | Settled
    | Sleeping(until: nat)
    | Handover
    | Ended
    | Crashed

  datatype Job =
    | Sync(mode: Mode, want: map<Host, Config>, phase: Phase, tasks: map<Host, Task>,
           before: map<Host, Device>, next: Option<JobId>)
    | Confirm(prev: JobId, hosts: set<Host>, phase: Phase, ctasks: map<Host, ConfirmTask>)
    | Refresh(phase: Phase)

  /**
   grants and releases count the rows inserted and deleted per job; early holds the jobs whose
   row went away before every commit of theirs was confirmed or timed out, and when it went.
   */
  datatype State = State(
    now: nat, timeout: nat, setting: Option<int>,
    rows: Rows, jobs: map<JobId, Job>, devices: map<Host, Device>,
    grants: multiset<JobId>, releases: multiset<JobId>, early: map<JobId, nat>)

  datatype Step =
    | NewSync(j: JobId, override: Option<int>, want: map<Host, Config>)
    | NewRefresh(j: JobId)
    | Query(j: JobId)
    | Insert(j: JobId)
    | EmptyDiff(j: JobId, h: Host)
    | CommitConfig(j: JobId, h: Host, reply: bool)
    | ConfirmInTask(j: JobId, h: Host, reply: bool)
    | Reachable(j: JobId, h: Host)
    | TaskFail(j: JobId, h: Host)
    | PushRaised(j: JobId)
    | PushDone(j: JobId)
    | Wake(j: JobId)
    | Conclude(j: JobId, c: JobId)
    | ConfirmStart(j: JobId, selected: set<Host>)
    | ConfirmHost(j: JobId, h: Host, reply: bool)
    | ConfirmHostFail(j: JobId, h: Host)
    | ConfirmRaised(j: JobId)
    | ConfirmDone(j: JobId)
    | WaitOver(j: JobId)
    | RefreshDone(j: JobId)
    | Crash(j: JobId)
    | Tick(to: nat, running: map<Host, Config>)
    | Unsync(h: Host)

  function GetConfirmMode(override: Option<int>, setting: Option<int>): (m: Mode)
  {
    if override.Some? && 0 <= override.value <= 2 then override.value
    else if setting.Some? && 0 <= setting.value <= 2 then setting.value
    else 1
  }

  // ------------------------------------------------------------------ helpers

  predicate CanHold(os: Os) { os != OtherOs }

  /** The commit of this host is confirmed inside the push task. */
  predicate InTask(mode: Mode, os: Os) { mode == 1 || (mode == 2 && !CanHold(os)) }

  predicate Terminal(t: Task) { t.Unchanged? || t.Changed? || t.Failed? }

  function ChangedHosts(tasks: map<Host, Task>): set<Host> {
    set h | h in tasks && tasks[h].Changed?
  }

  function UnchangedHosts(tasks: map<Host, Task>): set<Host> {
    set h | h in tasks && tasks[h].Unchanged?
  }

  function FailedHosts(tasks: map<Host, Task>): set<Host> {
    set h | h in tasks && tasks[h].Failed?
  }

  /** The job that owns the row this job works under. */
  function LockId(j: JobId, job: Job): JobId {
    if job.Confirm? then job.prev else j
  }

  /** Between taking over the row and letting it go. */
  predicate Critical(job: Job) {
    match job
    case Sync(_, _, p, _, _, _) => p.Running? || p.Settled? || p.Sleeping?
    case Confirm(_, _, p, _) => p.Waiting? || p.Running?
    case Refresh(p) => p.Running?
  }

  predicate Live(p: Phase) { !p.Ended? && !p.Crashed? }

  function SetJob(s: State, j: JobId, job: Job): State { s.(jobs := s.jobs[j := job]) }

  function SetPhase(s: State, j: JobId, p: Phase): State
    requires j in s.jobs
  {
    SetJob(s, j, s.jobs[j].(phase := p))
  }

  function SetDevice(s: State, h: Host, d: Device): State { s.(devices := s.devices[h := d]) }

  /** Device.synchronized assigned for every device of a set. */
  function Mark(devices: map<Host, Device>, hosts: set<Host>, value: bool): map<Host, Device> {
    map h | h in devices :: if h in hosts then devices[h].(synchronized := value) else devices[h]
  }

  /** release_lock by job id, then job j goes on to phase p; a missing row raises. */
  function ReleaseThen(s: State, owner: JobId, j: JobId, p: Phase, failure: Phase): State
    requires j in s.jobs
  {
    if owner in s.rows then
      SetPhase(s, j, p).(rows := s.rows - {owner}, releases := s.releases + multiset{owner})
    else
      SetPhase(s, j, failure)
  }

  // ------------------------------------------------------------- sync and refresh

  predicate Acquiring(s: State, j: JobId) {
    j in s.jobs && !s.jobs[j].Confirm?
  }

  function QueryPhase(s: State, j: JobId, attempt: nat): Phase
    requires j in s.jobs
  {
    if !NameTaken(s.rows, DEVICES) then SawFree(attempt)
    else if s.jobs[j].Sync? && attempt + 1 < MAX_ATTEMPTS then Waiting(attempt + 1)
    else Crashed
  }

  function NewSyncJob(s: State, override: Option<int>, want: map<Host, Config>): Job {
    Sync(GetConfirmMode(override, s.setting), want, Waiting(0), map h | h in want :: Todo, map[], None)
  }

  /** The unique constraints decide a race between two jobs that both saw no row. */
  function ApplyInsert(s: State, j: JobId): State
    requires j in s.jobs
  {
    if NameTaken(s.rows, DEVICES) || j in s.rows then SetPhase(s, j, Crashed)
    else
      var job := s.jobs[j];
      var job' := if job.Sync? then
                    job.(phase := Running, before := map h | h in job.want && h in s.devices :: s.devices[h])
                  else job.(phase := Running);
      SetJob(s, j, job').(rows := s.rows[j := DEVICES], grants := s.grants + multiset{j})
  }

  predicate Pushing(s: State, j: JobId, h: Host) {
    && j in s.jobs && s.jobs[j].Sync? && s.jobs[j].phase.Running?
    && h in s.jobs[j].tasks && h in s.jobs[j].want && h in s.devices
  }

  function SetTask(s: State, j: JobId, h: Host, t: Task): State
    requires j in s.jobs && s.jobs[j].Sync?
  {
    SetJob(s, j, s.jobs[j].(tasks := s.jobs[j].tasks[h := t]))
  }

  function ApplyCommit(s: State, j: JobId, h: Host, reply: bool): State
    requires Pushing(s, j, h)
  {
    var job, d := s.jobs[j], s.devices[h];
    var d' := d.(running := job.want[h],
                 timers := if job.mode == 0 then d.timers
                           else d.timers[j := Timer(d.running, s.now + s.timeout)]);
    var t := if !reply then Failed
             else if job.mode == 0 then Changed(Confirmed)
             else if InTask(job.mode, d.os) then Committing
             else Verifying;
    SetTask(SetDevice(s, h, d'), j, h, t)
  }

  /** has_pending_commit, then confirm_commit or discard_config. */
  function ApplyConfirmInTask(s: State, j: JobId, h: Host, reply: bool): State
    requires Pushing(s, j, h)
  {
    var d := s.devices[h];
    if j in d.timers then
      SetTask(SetDevice(s, h, d.(timers := d.timers - {j})), j, h,
              if reply then Changed(Confirmed) else Failed)
    else
      SetTask(s, j, h, Changed(Lapsed))
  }

  /** The bookkeeping after nornir returned: marks, then sleep, release or Settled. */
  function ApplyPushDone(s: State, j: JobId): State
    requires j in s.jobs && s.jobs[j].Sync?
  {
    var job := s.jobs[j];
    var ch, un := ChangedHosts(job.tasks), UnchangedHosts(job.tasks);
    if job.mode == 2 then SetPhase(s, j, Settled).(devices := Mark(s.devices, un, true))
    else if job.mode == 1 && FailedHosts(job.tasks) != {} then SetPhase(s, j, Sleeping(s.now + s.timeout))
    else if j in s.rows then ReleaseThen(s, j, j, Ended, Crashed).(devices := Mark(s.devices, ch + un, true))
    else SetPhase(s, j, Crashed)
  }

  function ApplyWake(s: State, j: JobId): State
    requires j in s.jobs && s.jobs[j].Sync?
  {
    var job := s.jobs[j];
    if job.mode == 1 && j in s.rows then
      ReleaseThen(s, j, j, Ended, Crashed)
        .(devices := Mark(s.devices, ChangedHosts(job.tasks) + UnchangedHosts(job.tasks), true))
    else
      ReleaseThen(s, j, j, Ended, Crashed)
  }

  /** Mode 2 only: wait out the timers, release, or schedule the confirm job. */
  function ApplyConclude(s: State, j: JobId, c: JobId): State
    requires j in s.jobs && s.jobs[j].Sync?
  {
    var job := s.jobs[j];
    if FailedHosts(job.tasks) != {} then SetPhase(s, j, Sleeping(s.now + s.timeout))
    else if ChangedHosts(job.tasks) == {} then ReleaseThen(s, j, j, Ended, Crashed)
    else
      SetJob(SetJob(s, j, job.(phase := Handover, next := Some(c))),
             c, Confirm(j, ChangedHosts(job.tasks), Waiting(0), map[]))
  }

  // ------------------------------------------------------------------- confirm job

  predicate Confirming(s: State, c: JobId, h: Host) {
    && c in s.jobs && s.jobs[c].Confirm? && s.jobs[c].phase.Running?
    && h in s.jobs[c].ctasks && s.jobs[c].ctasks[h].CTodo? && h in s.devices
  }

  function SetCTask(s: State, c: JobId, h: Host, t: ConfirmTask): State
    requires c in s.jobs && s.jobs[c].Confirm?
  {
    SetJob(s, c, s.jobs[c].(ctasks := s.jobs[c].ctasks[h := t]))
  }

  function ApplyConfirmHost(s: State, c: JobId, h: Host, reply: bool): State
    requires Confirming(s, c, h)
  {
    var d, prev := s.devices[h], s.jobs[c].prev;
    if !CanHold(d.os) then SetCTask(s, c, h, CDone)
    else if prev in d.timers then
      SetCTask(SetDevice(s, h, d.(timers := d.timers - {prev})), c, h, if reply then CDone else CFailed)
    else SetCTask(s, c, h, CFailed)
  }

  function ApplyConfirmDone(s: State, c: JobId): State
    requires c in s.jobs && s.jobs[c].Confirm?
  {
    var job := s.jobs[c];
    var done := set h | h in job.ctasks && job.ctasks[h].CDone?;
    var failed := job.ctasks.Keys - done;
    if job.prev in s.rows then
      ReleaseThen(s, job.prev, c, Ended, Crashed)
        .(devices := Mark(Mark(s.devices, done, true), failed, false),
          early := if job.hosts <= done then s.early else s.early[job.prev := s.now])
    else
      SetPhase(s, c, Crashed)
  }

  // ------------------------------------------------------------------------ time

  predicate Expired(t: Timer, now: nat) { t.deadline <= now }

  /** Expired timers fire; when several fire on one device any of them may fire last. */
  ghost predicate Fires(d: Device, to: nat, running: Config) {
    if forall j :: j in d.timers ==> !Expired(d.timers[j], to) then running == d.running
    else exists j :: j in d.timers && Expired(d.timers[j], to) && running == d.timers[j].revertTo
  }

  function Advance(d: Device, to: nat, running: Config): Device {
    d.(running := running, timers := map j | j in d.timers && !Expired(d.timers[j], to) :: d.timers[j])
  }

  // ------------------------------------------------------------------- transitions

  ghost predicate Enabled(s: State, a: Step) {
    match a
    case NewSync(j, _, want) => j !in s.jobs && want.Keys <= s.devices.Keys
    case NewRefresh(j) => j !in s.jobs
    case Query(j) => Acquiring(s, j) && s.jobs[j].phase.Waiting?
    case Insert(j) => Acquiring(s, j) && s.jobs[j].phase.SawFree?
    case EmptyDiff(j, h) =>
      Pushing(s, j, h) && s.jobs[j].tasks[h].Todo? && s.devices[h].running == s.jobs[j].want[h]
    case CommitConfig(j, h, _) =>
      Pushing(s, j, h) && s.jobs[j].tasks[h].Todo? && s.devices[h].running != s.jobs[j].want[h]
    case ConfirmInTask(j, h, _) => Pushing(s, j, h) && s.jobs[j].tasks[h].Committing?
    case Reachable(j, h) => Pushing(s, j, h) && s.jobs[j].tasks[h].Verifying?
    case TaskFail(j, h) => Pushing(s, j, h) && !Terminal(s.jobs[j].tasks[h])
    case PushRaised(j) => j in s.jobs && s.jobs[j].Sync? && s.jobs[j].phase.Running?
    case PushDone(j) =>
      && j in s.jobs && s.jobs[j].Sync? && s.jobs[j].phase.Running?
      && (forall h :: h in s.jobs[j].tasks ==> Terminal(s.jobs[j].tasks[h]))
    case Wake(j) =>
      j in s.jobs && s.jobs[j].Sync? && s.jobs[j].phase.Sleeping? && s.jobs[j].phase.until <= s.now
    case Conclude(j, c) => j in s.jobs && s.jobs[j].Sync? && s.jobs[j].phase.Settled? && c !in s.jobs
    case ConfirmStart(c, selected) =>
      c in s.jobs && s.jobs[c].Confirm? && s.jobs[c].phase.Waiting? && selected <= s.jobs[c].hosts
    case ConfirmHost(c, h, _) => Confirming(s, c, h)
    case ConfirmHostFail(c, h) => Confirming(s, c, h)
    case ConfirmRaised(c) => c in s.jobs && s.jobs[c].Confirm? && s.jobs[c].phase.Running?
    case ConfirmDone(c) =>
      && c in s.jobs && s.jobs[c].Confirm? && s.jobs[c].phase.Running?
      && (forall h :: h in s.jobs[c].ctasks ==> !s.jobs[c].ctasks[h].CTodo?)
    case WaitOver(j) =>
      && j in s.jobs && s.jobs[j].Sync? && s.jobs[j].phase.Handover? && s.jobs[j].next.Some?
      && s.jobs[j].next.value in s.jobs && !Live(s.jobs[s.jobs[j].next.value].phase)
    case RefreshDone(j) => j in s.jobs && s.jobs[j].Refresh? && s.jobs[j].phase.Running?
    case Crash(j) => j in s.jobs && Live(s.jobs[j].phase)
    case Tick(to, running) =>
      s.now <= to && running.Keys == s.devices.Keys
      && forall h :: h in s.devices ==> Fires(s.devices[h], to, running[h])
    case Unsync(h) => h in s.devices
  }

  ghost function Apply(s: State, a: Step): State
    requires Enabled(s, a)
  {
    match a
    case NewSync(j, override, want) => SetJob(s, j, NewSyncJob(s, override, want))
    case NewRefresh(j) => SetJob(s, j, Refresh(Waiting(0)))
    case Query(j) => SetPhase(s, j, QueryPhase(s, j, s.jobs[j].phase.attempt))
    case Insert(j) => ApplyInsert(s, j)
    case EmptyDiff(j, h) => SetTask(s, j, h, Unchanged)
    case CommitConfig(j, h, reply) => ApplyCommit(s, j, h, reply)
    case ConfirmInTask(j, h, reply) => ApplyConfirmInTask(s, j, h, reply)
    case Reachable(j, h) => SetTask(s, j, h, Changed(Armed))
    case TaskFail(j, h) => SetTask(s, j, h, Failed)
    case PushRaised(j) => ReleaseThen(s, j, j, Ended, Ended).(early := s.early[j := s.now])
    case PushDone(j) => ApplyPushDone(s, j)
    case Wake(j) => ApplyWake(s, j)
    case Conclude(j, c) => ApplyConclude(s, j, c)
    case ConfirmStart(c, selected) =>
      SetJob(s, c, s.jobs[c].(phase := Running, ctasks := map h | h in selected :: CTodo))
    case ConfirmHost(c, h, reply) => ApplyConfirmHost(s, c, h, reply)
    case ConfirmHostFail(c, h) => SetCTask(s, c, h, CFailed)
    case ConfirmRaised(c) =>
      ReleaseThen(s, s.jobs[c].prev, c, Crashed, Crashed).(early := s.early[s.jobs[c].prev := s.now])
    case ConfirmDone(c) => ApplyConfirmDone(s, c)
    case WaitOver(j) => SetPhase(s, j, Ended)
    case RefreshDone(j) => ReleaseThen(s, j, j, Ended, Ended)
    case Crash(j) => SetPhase(s, j, Crashed)
    case Tick(to, running) =>
      s.(now := to, devices := map h | h in s.devices :: Advance(s.devices[h], to, running[h]))
    case Unsync(h) => SetDevice(s, h, s.devices[h].(synchronized := false))
  }

  ghost predicate Init(s: State) {
    && 0 < s.timeout
    && s.rows == map[] && s.jobs == map[] && s.early == map[]
    && s.grants == multiset{} && s.releases == multiset{}
    && forall h :: h in s.devices ==> s.devices[h].timers == map[]
  }

  /** A run is a list of steps, each enabled where it is taken. */
  ghost predicate Legal(s: State, run: seq<Step>)
    decreases |run|
  {
    run == [] || (Enabled(s, run[0]) && Legal(Apply(s, run[0]), run[1..]))
  }

  ghost function Exec(s: State, run: seq<Step>): State
    requires Legal(s, run)
    decreases |run|
  {
    if run == [] then s else Exec(Apply(s, run[0]), run[1..])
  }
}
