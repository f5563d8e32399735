/**
 What becomes of a camera task that panics: teardown or the worker reports it, unless the
 retain in crates/pandar-agent/src/camera_control.rs drops its entry first.
*/
module CameraPanics {
  import opened Basics
  import opened AgentStream
  import opened AgentStreamTheorems

  /** The retain of an open is about to drop task `t`, which has ended, without a look at its result. */
  predicate Forgets(s: State, a: Action, t: nat) {
    && a.WorkerLocks? && s.worker.Locking? && s.worker.camera.Open?
    && t < |s.cameras| && s.cameras[t].end.Some?
    && s.cameras[t].stream in s.streams && s.streams[s.cameras[t].stream] == t
  }

  ghost predicate Forgotten(actions: seq<Action>, t: nat) {
    exists p | 0 <= p < |actions| :: Run(actions[..p]).Some? && Forgets(Run(actions[..p]).value, actions[p], t)
  }

  predicate Panicked(s: State, t: nat) {
    t < |s.cameras| && s.cameras[t].end.Some? && s.cameras[t].end.value.CameraPanicked?
  }

  predicate WorkerHasFailed(s: State) {
    s.worker.Exited? && s.worker.end.WorkerFailed?
  }

  /** A task that is out of the table has been joined by teardown, has made the worker fail, or did not panic. */
  ghost predicate Accounted(s: State, t: nat) {
    t < |s.cameras| ==>
      || TabledOrJoined(s, s.cameras[t].stream, t) || WorkerHasFailed(s)
      || (s.cameras[t].end.Some? && !Panicked(s, t))
  }

  lemma RetainAccounts(s: State, t: nat)
    requires Accounted(s, t) && !s.worker.Exited?
    requires t < |s.cameras| && s.cameras[t].end.Some? ==>
               s.cameras[t].stream !in s.streams || s.streams[s.cameras[t].stream] != t
    ensures Accounted(s.(streams := RetainRunning(s)), t)
  {
    assert t < |s.cameras| && s.cameras[t].end.None? ==> Running(s, t);
  }

  lemma StopAccounts(s: State, stream: StreamId, reopen: bool, t: nat)
    requires Accounted(s, t) && !s.worker.Exited? && stream in s.streams
    ensures Accounted(StopCamera(s, stream, reopen), t)
  {
  }

  lemma LockAccounts(s: State, command: CameraCommand, t: nat)
    requires TableOk(s) && Accounted(s, t) && s.worker == Locking(command)
    ensures Accounted(LockedSection(s, command), t) || Forgets(s, WorkerLocks, t)
  {
    match command
    case Open(stream) =>
      var kept := s.(streams := RetainRunning(s));
      if !Forgets(s, WorkerLocks, t) {
        RetainAccounts(s, t);
        if stream in kept.streams {
          StopAccounts(kept, stream, true, t);
        }
      }
    case Close(stream) =>
      if stream in s.streams {
        StopAccounts(s, stream, false, t);
      }
    case NoCommand =>
  }

  lemma JoinAccounts(s: State, t: nat)
    requires TableOk(s) && Accounted(s, t) && s.worker.Joining? && CameraReady(s, s.worker.stream)
    ensures Accounted(WorkerStep(s, WorkerJoinsCamera).value, t)
  {
  }

  lemma SpawnAccounts(s: State, t: nat)
    requires TableOk(s) && Accounted(s, t) && s.worker.Resolving?
    ensures Accounted(SpawnCamera(s, s.worker.stream), t)
  {
  }

  lemma WorkerAccounts(s: State, a: Action, t: nat)
    requires TableOk(s) && Accounted(s, t) && WorkerStep(s, a).Some?
    ensures Accounted(WorkerStep(s, a).value, t) || Forgets(s, a, t)
  {
    match a
    case WorkerLocks => LockAccounts(s, s.worker.camera, t);
    case WorkerJoinsCamera => JoinAccounts(s, t);
    case WorkerResolves => SpawnAccounts(s, t);
    case _ =>
  }

  lemma TaskAccounts(s: State, a: Action, t: nat)
    requires TableOk(s) && Accounted(s, t) && EndsATask(a) && TaskStep(s, a).Some?
    ensures Accounted(TaskStep(s, a).value, t)
  {
  }

  lemma TeardownAccounts(s: State, a: Action, t: nat)
    requires TableOk(s) && Accounted(s, t) && TeardownStep(s, a).Some?
    ensures Accounted(TeardownStep(s, a).value, t)
  {
  }

  predicate CamerasLeft(s: State, u: State) {
    u.cameras == s.cameras && u.streams == s.streams && u.worker == s.worker && s.history <= u.history
  }

  lemma BreakLeavesCameras(s: State, event: Event)
    ensures CamerasLeft(s, Break(s, event))
  {
  }

  lemma LoopJoinLeavesCameras(s: State, f: nat, spawn: bool)
    requires FirmwareReady(s, f)
    ensures CamerasLeft(s, LoopJoin(s, f, spawn))
  {
  }

  lemma LoopLeavesCameras(s: State, a: Action)
    requires LoopStep(s, a).Some?
    ensures CamerasLeft(s, LoopStep(s, a).value)
  {
    match a
    case FullSetJoins(f) => LoopJoinLeavesCameras(s, f, true);
    case FirmwareSeen(f) => LoopJoinLeavesCameras(s, f, false);
    case SendFails => BreakLeavesCameras(s, SendRefused);
    case StreamFails(cause) => BreakLeavesCameras(s, StreamFailed(cause));
    case StreamEnds => BreakLeavesCameras(s, StreamEnded);
    case CancellationFires => BreakLeavesCameras(s, CancellationFired);
    case WorkerSeenStopped => BreakLeavesCameras(s.(workerJoined := true), WorkerStopped(s.worker.end));
    case _ =>
  }

  lemma LoopAccounts(s: State, a: Action, t: nat)
    requires Accounted(s, t) && LoopStep(s, a).Some?
    ensures Accounted(LoopStep(s, a).value, t)
  {
    LoopLeavesCameras(s, a);
  }

  lemma StepAccounts(s: State, a: Action, t: nat)
    requires TableOk(s) && Accounted(s, t) && Step(s, a).Some?
    ensures Accounted(Step(s, a).value, t) || Forgets(s, a, t)
  {
    if EndsATask(a) {
      TaskAccounts(s, a, t);
    } else if IsWorkerAction(a) {
      WorkerAccounts(s, a, t);
    } else if IsTeardownAction(a) {
      TeardownAccounts(s, a, t);
    } else {
      LoopAccounts(s, a, t);
    }
  }

  lemma {:induction false} RunAccounts(actions: seq<Action>, t: nat)
    requires Run(actions).Some?
    ensures Accounted(Run(actions).value, t) || Forgotten(actions, t)
  {
    if actions != [] {
      var before, a := actions[..|actions| - 1], actions[|actions| - 1];
      RunAccounts(before, t);
      if Forgotten(before, t) {
        StillForgotten(before, a, t);
        assert actions == before + [a];
      } else {
        TableIsOk(before);
        StepAccounts(Run(before).value, a, t);
      }
    }
  }

  lemma StillForgotten(actions: seq<Action>, a: Action, t: nat)
    requires Forgotten(actions, t)
    ensures Forgotten(actions + [a], t)
  {
    var p :| 0 <= p < |actions| && Run(actions[..p]).Some? && Forgets(Run(actions[..p]).value, actions[p], t);
    assert (actions + [a])[..p] == actions[..p];
  }

  lemma TableIsOk(actions: seq<Action>)
    requires Run(actions).Some?
    ensures TableOk(Run(actions).value)
  {
    RunKeeps(actions);
  }

  /**
   Over the whole run, a panicked camera task makes the result an error, unless the retain
   of a later open dropped it first.
  */
  lemma PanicSurfacesUnlessForgotten(actions: seq<Action>, t: nat)
    requires Run(actions).Some? && Run(actions).value.main.Done? && Panicked(Run(actions).value, t)
    ensures Run(actions).value.outcome.Failed? || Forgotten(actions, t)
  {
    RunAccounts(actions, t);
    var s := Run(actions).value;
    if Accounted(s, t) {
      TableIsEmpty(actions);
      if WorkerHasFailed(s) {
        WorkerFailureSurfaces(actions);
      } else {
        JoinSurfaces(s, s.cameras[t].stream, t);
      }
    }
  }

  // ----- A run that forgets a panic -----

  lemma Continue(actions: seq<Action>, s: State, a: Action, next: State) returns (more: seq<Action>)
    requires Run(actions) == Some(s) && Step(s, a) == Some(next)
    ensures more == actions + [a] && Run(more) == Some(next)
  {
    more := actions + [a];
    assert more[..|more| - 1] == actions;
  }

  lemma OpenIsQueued(s: State, command: Command)
    requires s.main.Selecting? && s.worker.Receiving? && s.queue == []
    ensures Step(s, NormalCommand(command)) == Some(s.(main := Sending(command)))
    ensures Step(s.(main := Sending(command)), SendCompletes) == Some(s.(queue := [command]))
  {
    assert s.queue + [command] == [command];
  }

  lemma OpenIsReceived(s: State, stream: StreamId)
    requires s.worker.Receiving? && s.queue == []
    ensures Step(s.(queue := [Camera(Open(stream))]), WorkerReceives) == Some(s.(worker := Locking(Open(stream))))
  {
    assert [Camera(Open(stream))][1..] == [];
  }

  /** A run up to the locked section of an open. */
  lemma ReachLock(actions: seq<Action>, s: State, stream: StreamId) returns (more: seq<Action>)
    requires Run(actions) == Some(s) && s.main.Selecting? && s.worker.Receiving? && s.queue == []
    ensures Run(more) == Some(s.(worker := Locking(Open(stream))))
  {
    var command := Camera(Open(stream));
    OpenIsQueued(s, command);
    OpenIsReceived(s, stream);
    more := Continue(actions, s, NormalCommand(command), s.(main := Sending(command)));
    more := Continue(more, s.(main := Sending(command)), SendCompletes, s.(queue := [command]));
    more := Continue(more, s.(queue := [command]), WorkerReceives, s.(worker := Locking(Open(stream))));
  }

  function Spawned(stream: StreamId): State {
    Initial().(streams := map[stream := 0], cameras := [CameraTask(stream, false, None)])
  }

  function SpawnedThenPanicked(stream: StreamId, cause: Cause): State {
    Spawned(stream).(cameras := [CameraTask(stream, false, Some(CameraPanicked(cause)))])
  }

  lemma FirstOpenSteps(stream: StreamId, cause: Cause)
    ensures Step(Initial().(worker := Locking(Open(stream))), WorkerLocks) ==
            Some(Initial().(worker := Resolving(stream)))
    ensures Step(Initial().(worker := Resolving(stream)), WorkerResolves) == Some(Spawned(stream))
    ensures Step(Spawned(stream), CameraEnds(0, CameraPanicked(cause))) == Some(SpawnedThenPanicked(stream, cause))
  {
    assert RetainRunning(Initial().(worker := Locking(Open(stream)))) == map[];
    var task := CameraTask(stream, false, None);
    var ended := task.(end := Some(CameraPanicked(cause)));
    assert [] + [task] == [task] && [task][0 := ended] == [ended];
  }

  /** A run that opens a camera stream whose task then panics. */
  lemma ReachPanic(stream: StreamId, cause: Cause) returns (actions: seq<Action>)
    ensures Run(actions) == Some(SpawnedThenPanicked(stream, cause))
  {
    var locking, resolving := Initial().(worker := Locking(Open(stream))), Initial().(worker := Resolving(stream));
    FirstOpenSteps(stream, cause);
    actions := ReachLock([], Initial(), stream);
    actions := Continue(actions, locking, WorkerLocks, resolving);
    actions := Continue(actions, resolving, WorkerResolves, Spawned(stream));
    actions := Continue(
      actions, Spawned(stream), CameraEnds(0, CameraPanicked(cause)), SpawnedThenPanicked(stream, cause));
  }

  /** The second open drops the panicked task. */
  lemma SecondOpenForgets(first: StreamId, second: StreamId, cause: Cause)
    ensures var s := SpawnedThenPanicked(first, cause);
            && Forgets(s.(worker := Locking(Open(second))), WorkerLocks, 0)
            && Step(s.(worker := Locking(Open(second))), WorkerLocks) ==
               Some(s.(worker := Resolving(second), streams := map[]))
  {
    assert RetainRunning(SpawnedThenPanicked(first, cause).(worker := Locking(Open(second)))) == map[];
  }

  /** A run without failures ends while the worker resolves an open, with an empty table. */
  lemma ReachReturn(actions: seq<Action>, s: State) returns (more: seq<Action>)
    requires Run(actions) == Some(s) && s.main.Selecting? && s.worker.Resolving? && s.streams == map[]
    requires s.joinSet == {} && s.outcome.ConnectedThenEnded? && !s.workerJoined
    ensures Run(more).Some? && Run(more).value.main.Done? && Run(more).value.outcome.ConnectedThenEnded?
    ensures actions < more && Run(more).value.cameras == s.cameras
  {
    var cancelled := Break(s, StreamEnded).(worker := Exited(WorkerCancelled));
    var done := EmptyTeardown(s);
    more := Continue(actions, s, StreamEnds, Break(s, StreamEnded));
    more := Continue(more, Break(s, StreamEnded), WorkerIsCancelled, cancelled);
    more := Continue(more, cancelled, DrainEmpty, cancelled.(main := JoiningWorker));
    more := Continue(more, cancelled.(main := JoiningWorker), WorkerAwaited, done.(main := LockingCameras));
    more := Continue(more, done.(main := LockingCameras), CamerasLocked(None), done);
  }

  lemma EmptyTeardown(s: State) returns (done: State)
    requires s.main.Selecting? && s.worker.Resolving? && s.streams == map[]
    requires s.joinSet == {} && s.outcome.ConnectedThenEnded? && !s.workerJoined
    ensures done.main.Done? && done.outcome.ConnectedThenEnded? && done.cameras == s.cameras
    ensures var broken := Break(s, StreamEnded);
            var cancelled := broken.(worker := Exited(WorkerCancelled));
            && Step(s, StreamEnds) == Some(broken) && Step(broken, WorkerIsCancelled) == Some(cancelled)
            && Step(cancelled, DrainEmpty) == Some(cancelled.(main := JoiningWorker))
            && Step(cancelled.(main := JoiningWorker), WorkerAwaited) == Some(done.(main := LockingCameras))
            && Step(done.(main := LockingCameras), CamerasLocked(None)) == Some(done)
  {
    var joining := Break(s, StreamEnded).(worker := Exited(WorkerCancelled), main := JoiningWorker);
    done := Record(joining, WorkerJoined(WorkerCancelled)).(main := Done, workerJoined := true);
  }

  /** That does happen: for any two streams some run forgets a panic and returns without an error. */
  lemma RetainForgetsPanic(first: StreamId, second: StreamId, cause: Cause) returns (actions: seq<Action>)
    ensures Run(actions).Some? && Run(actions).value.main.Done? && Panicked(Run(actions).value, 0)
    ensures Run(actions).value.outcome.ConnectedThenEnded? && Forgotten(actions, 0)
  {
    var s := SpawnedThenPanicked(first, cause);
    SecondOpenForgets(first, second, cause);
    var before := ReachPanic(first, cause);
    before := ReachLock(before, s, second);
    var resolving := s.(worker := Resolving(second), streams := map[]);
    var dropped := Continue(before, s.(worker := Locking(Open(second))), WorkerLocks, resolving);
    actions := ReachReturn(dropped, resolving);
    assert actions[..|before|] == before && actions[|before|] == WorkerLocks;
  }
}
