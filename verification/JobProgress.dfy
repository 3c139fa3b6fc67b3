/** Moving the names of finished devices from a shared list into the job row while the job runs. */
module JobProgress {
  import opened Common

  /** The drain thread: waiting, before a length test, before a pop, before writing the row, or gone. */
  datatype Phase = Waiting | Testing | Popping | Writing | Exited

  /** list is the Redis list, head first; buffer is new_finished_devices of the pass under way. */
  datatype State = State(
    list: seq<string>,
    buffer: seq<string>,
    row: seq<string>,
    phase: Phase,
    last: bool,
    stop: bool,
    pushed: seq<string>)

  datatype Step = Push(device: string) | SetStop | Timeout | Stopped | LLen | LPop | WriteRow

  const START := State([], [], [], Waiting, false, false, [])

  /** Devices are pushed by the job function, which has returned when the stop event is set. */
  predicate Enabled(s: State, step: Step) {
    match step
    case Push(_) => !s.stop
    case SetStop => !s.stop
    case Timeout => s.phase == Waiting && !s.stop
    case Stopped => s.phase == Waiting && s.stop
    case LLen => s.phase == Testing
    case LPop => s.phase == Popping
    case WriteRow => s.phase == Writing
  }

  /** Where a pass over the list goes on: back to waiting, or out after the last one. */
  function PassEnds(s: State): Phase { if s.last then Exited else Waiting }

  function Apply(s: State, step: Step): State
    requires Enabled(s, step)
  {
    match step
    case Push(d) => s.(list := [d] + s.list, pushed := s.pushed + [d])
    case SetStop => s.(stop := true)
    case Timeout => s.(phase := Testing, buffer := [], last := false)
    case Stopped => s.(phase := Testing, buffer := [], last := true)
    case LLen =>
      if s.list != [] then s.(phase := Popping)
      else if s.buffer != [] then s.(phase := Writing)
      else s.(phase := PassEnds(s))
    case LPop =>
      if s.list == [] then s.(phase := Testing)
      else s.(list := s.list[1..], buffer := s.buffer + [s.list[0]], phase := Testing)
    case WriteRow => s.(row := s.row + s.buffer, buffer := [], phase := PassEnds(s))
  }

  ghost predicate Legal(s: State, steps: seq<Step>)
    decreases |steps|
  {
    steps == [] || (Enabled(s, steps[0]) && Legal(Apply(s, steps[0]), steps[1..]))
  }

  ghost function Run(s: State, steps: seq<Step>): State
    requires Legal(s, steps)
    decreases |steps|
  {
    if steps == [] then s else Run(Apply(s, steps[0]), steps[1..])
  }

  // ------------------------------------------------------------------------ invariant

  /** No device is lost or counted twice, and after the stop event the list only shrinks. */
  ghost predicate Inv(s: State) {
    && multiset(s.row) + multiset(s.buffer) + multiset(s.list) == multiset(s.pushed)
    && (s.phase in {Waiting, Exited} ==> s.buffer == [])
    && (s.phase == Popping ==> s.list != [])
    && (s.last ==> s.stop)
    && (s.last && s.phase in {Writing, Exited} ==> s.list == [])
    && (s.phase == Exited ==> s.last)
  }

  lemma StepKeepsInv(s: State, step: Step)
    requires Inv(s) && Enabled(s, step)
    ensures Inv(Apply(s, step))
  {
    match step
    case Push(d) =>
      assert multiset([d] + s.list) == multiset{d} + multiset(s.list);
      assert multiset(s.pushed + [d]) == multiset(s.pushed) + multiset{d};
    case LPop =>
      assert s.list == [s.list[0]] + s.list[1..];
      assert multiset(s.list) == multiset{s.list[0]} + multiset(s.list[1..]);
      assert multiset(s.buffer + [s.list[0]]) == multiset(s.buffer) + multiset{s.list[0]};
    case WriteRow =>
      assert multiset(s.row + s.buffer) == multiset(s.row) + multiset(s.buffer);
    case _ =>
  }

  lemma {:induction false} InvAlongRun(s: State, steps: seq<Step>)
    requires Inv(s) && Legal(s, steps)
    ensures Inv(Run(s, steps))
    decreases |steps|
  {
    if steps != [] {
      StepKeepsInv(s, steps[0]);
      InvAlongRun(Apply(s, steps[0]), steps[1..]);
    }
  }

  /** In every run nothing is lost on the way, and once the thread is gone the row has all of it. */
  lemma ProgressIsConserved(steps: seq<Step>)
    requires Legal(START, steps)
    ensures var s := Run(START, steps);
            && multiset(s.row) + multiset(s.buffer) + multiset(s.list) == multiset(s.pushed)
            && (s.phase == Exited ==> multiset(s.row) == multiset(s.pushed))
  {
    InvAlongRun(START, steps);
  }

  /** Names leave the shared list only from its head and enter the row only at its end. */
  lemma {:induction false} RowOnlyGrows(s: State, steps: seq<Step>)
    requires Legal(s, steps)
    ensures s.row <= Run(s, steps).row
    decreases |steps|
  {
    if steps != [] { RowOnlyGrows(Apply(s, steps[0]), steps[1..]); }
  }

  /** What is left to do for the thread once the stop event is set. */
  function Remaining(s: State): nat {
    match s.phase
    case Waiting => 2 * |s.list| + 3
    case Testing => 2 * |s.list| + 2 + (if s.last then 0 else 2 * |s.list| + |s.buffer| + 5)
    case Popping => 2 * |s.list| + 1 + (if s.last then 0 else 2 * |s.list| + |s.buffer| + 5)
    case Writing => 1 + (if s.last then 0 else 2 * |s.list| + |s.buffer| + 5)
    case Exited => 0
  }

  /** After the stop event the thread is never stuck and every step brings it closer to its end. */
  lemma ThreadEnds(s: State)
    requires Inv(s) && s.stop && s.phase != Exited
    ensures exists step :: Enabled(s, step)
    ensures forall step :: Enabled(s, step) ==> Remaining(Apply(s, step)) < Remaining(s)
  {
    var next := match s.phase case Waiting => Stopped case Testing => LLen case Popping => LPop case _ => WriteRow;
    assert Enabled(s, next);
  }

  lemma StepBefore(s: State, step: Step, rest: seq<Step>)
    requires Enabled(s, step) && Legal(Apply(s, step), rest)
    ensures Legal(s, [step] + rest) && Run(s, [step] + rest) == Run(Apply(s, step), rest)
  {
    assert ([step] + rest)[0] == step && ([step] + rest)[1..] == rest;
  }

  /** A pass nobody interferes with moves the list, head first, to the end of the row and goes back to waiting. */
  lemma {:induction false} PassMovesList(s: State) returns (steps: seq<Step>)
    requires s.phase == Testing
    ensures Legal(s, steps)
    ensures Run(s, steps) == s.(list := [], buffer := [], row := s.row + s.buffer + s.list,
                                phase := if s.last then Exited else Waiting)
    decreases |s.list|
  {
    var s1 := Apply(s, LLen);
    if s.list != [] {
      var s2 := Apply(s1, LPop);
      assert s.buffer + [s.list[0]] + s.list[1..] == s.buffer + s.list;
      assert s.row + (s.buffer + [s.list[0]]) + s.list[1..] == s.row + s.buffer + s.list;
      var rest := PassMovesList(s2);
      StepBefore(s1, LPop, rest);
      StepBefore(s, LLen, [LPop] + rest);
      steps := [LLen] + ([LPop] + rest);
    } else if s.buffer != [] {
      StepBefore(s1, WriteRow, []);
      StepBefore(s, LLen, [WriteRow] + []);
      steps := [LLen] + ([WriteRow] + []);
      assert s.row + s.buffer + [] == s.row + s.buffer;
    } else {
      StepBefore(s, LLen, []);
      steps := [LLen] + [];
      assert s.row + [] + [] == s.row;
    }
  }

  // -------------------------------------------------------------------- one whole pass

  datatype ProgressError = NoSuchJob

  /** The list and the finished devices of the job row; None when there is no such row. */
  class ProgressStore {
    var list: seq<string>
    var finishedDevices: Option<seq<string>>

    constructor (row: Option<seq<string>>)
      ensures list == [] && finishedDevices == row
    {
      list, finishedDevices := [], row;
    }

    /** A finished device goes to the head of the list. */
    method LPush(device: string)
      modifies this`list
      ensures list == [device] + old(list)
    {
      list := [device] + list;
    }

    /** update_device_progress with nobody pushing meanwhile; without a row the devices taken off the list are lost. */
    method UpdateDeviceProgress() returns (r: Result<(), ProgressError>)
      modifies this
      ensures list == []
      ensures r.Err? <==> old(list) != [] && old(finishedDevices).None?
      ensures finishedDevices == match old(finishedDevices)
                                 case None => None
                                 case Some(row) => Some(row + old(list))
    {
      var newFinished: seq<string> := [];
      while |list| != 0
        invariant newFinished + list == old(list) && finishedDevices == old(finishedDevices)
        decreases |list|
      {
        var last := list[0];
        list := list[1..];
        newFinished := newFinished + [last];
      }
      assert newFinished + list == newFinished;
      if newFinished != [] {
        if finishedDevices.None? { return Err(NoSuchJob); }
        finishedDevices := Some(finishedDevices.value + newFinished);
      }
      if finishedDevices.Some? && newFinished == [] {
        assert finishedDevices.value + old(list) == finishedDevices.value;
      }
      return Ok(());
    }
  }
}
