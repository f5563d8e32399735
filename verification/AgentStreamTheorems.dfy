/** What every run of the agent's command stream keeps, and what it leaves behind on return. */
module AgentStreamTheorems {
  import opened Basics
  import opened AgentStream

  // ----- The first failure of a history -----

  function FirstFailure(history: seq<Event>): Option<Error> {
    if history == [] then None
    else if FailureOf(history[0]).Some? then FailureOf(history[0])
    else FirstFailure(history[1..])
  }

  lemma {:induction false} FirstFailureOfAppend(history: seq<Event>, event: Event)
    ensures FirstFailure(history + [event]) ==
            if FirstFailure(history).Some? then FirstFailure(history) else FailureOf(event)
  {
    if history == [] {
      assert [event][1..] == [];
    } else {
      assert (history + [event])[1..] == history[1..] + [event];
      FirstFailureOfAppend(history[1..], event);
    }
  }

  /** `FirstFailure` is the failure of the earliest failing observation, or none. */
  lemma {:induction false} FirstFailureIsFirst(history: seq<Event>)
    ensures FirstFailure(history).None? <==> forall i | 0 <= i < |history| :: FailureOf(history[i]).None?
    ensures FirstFailure(history).Some? ==>
              exists i | 0 <= i < |history| ::
                && FailureOf(history[i]) == FirstFailure(history)
                && forall j | 0 <= j < i :: FailureOf(history[j]).None?
  {
    if history != [] {
      FirstFailureIsFirst(history[1..]);
      assert forall i | 1 <= i < |history| :: history[i] == history[1..][i - 1];
      if FailureOf(history[0]).None? && FirstFailure(history[1..]).Some? {
        var i :| 0 <= i < |history[1..]| && FailureOf(history[1..][i]) == FirstFailure(history[1..])
                 && forall j | 0 <= j < i :: FailureOf(history[1..][j]).None?;
        assert FailureOf(history[i + 1]) == FirstFailure(history);
        forall j | 0 <= j < i + 1
          ensures FailureOf(history[j]).None?
        {
          assert j > 0 ==> history[j] == history[1..][j - 1];
        }
      }
    }
  }

  function OutcomeOf(history: seq<Event>): Outcome {
    match FirstFailure(history)
    case None => ConnectedThenEnded
    case Some(error) => Failed(error)
  }

  // ----- The invariant -----

  /** No camera task is lost: one that has not ended is in the table, under its own stream id. */
  ghost predicate Tabled(streams: map<StreamId, nat>, cameras: seq<CameraTask>) {
    && (forall k | k in streams :: streams[k] < |cameras| && cameras[streams[k]].stream == k)
    && (forall t: nat | t < |cameras| && cameras[t].end.None? ::
          cameras[t].stream in streams && streams[cameras[t].stream] == t)
  }

  /** A task of a stream starts only after every earlier task of that stream has ended. */
  ghost predicate Succession(cameras: seq<CameraTask>) {
    forall t: nat, u: nat | t < u < |cameras| && cameras[t].stream == cameras[u].stream :: cameras[t].end.Some?
  }

  ghost predicate TableOk(s: State) {
    && Tabled(s.streams, s.cameras) && Succession(s.cameras)
    && |s.streams| <= CAMERA_LIMIT
    && (s.worker.Resolving? ==> s.worker.stream !in s.streams && |s.streams| < CAMERA_LIMIT)
    && (s.worker.Joining? ==> s.worker.stream in s.streams)
    && (s.main.JoiningCamera? ==> s.main.stream in s.streams)
  }

  /** No firmware task is lost, and each joined one is in the history with its own result. */
  ghost predicate FirmwareOkay(s: State) {
    && (forall f | f in s.joinSet :: f < |s.firmware|)
    && |s.joinSet| <= FIRMWARE_LIMIT
    && (forall f: nat | f < |s.firmware| && f !in s.joinSet ::
          s.firmware[f].end.Some? && FirmwareJoined(f, s.firmware[f].end.value) in s.history)
  }

  /** The worker has ended and the main task has seen how. */
  ghost predicate WorkerObserved(s: State) {
    s.worker.Exited? && (WorkerStopped(s.worker.end) in s.history || WorkerJoined(s.worker.end) in s.history)
  }

  ghost predicate PhaseOk(s: State) {
    && (s.workerJoined ==> WorkerObserved(s))
    && (s.main.LockingCameras? || s.main.JoiningCamera? || s.main.Done? ==> s.workerJoined)
    && (s.main.JoiningWorker? || s.main.LockingCameras? || s.main.JoiningCamera? || s.main.Done? ==> s.joinSet == {})
    && (s.main.JoiningWorker? ==> !s.workerJoined)
    && (s.main.Done? ==> s.streams == map[])
    && (InLoop(s.main) ==> FirstFailure(s.history).None? && !s.workerJoined)
    && s.outcome == OutcomeOf(s.history)
  }

  /** During teardown everything still awaited has been told to abort. */
  ghost predicate AbortsSent(s: State) {
    !InLoop(s.main) ==>
      && (forall f | f in s.joinSet && f < |s.firmware| :: s.firmware[f].aborting)
      && (s.worker.Exited? || s.workerAborting)
      && (s.main.JoiningCamera? && s.main.stream in s.streams && s.streams[s.main.stream] < |s.cameras| ==>
            s.cameras[s.streams[s.main.stream]].aborting)
  }

  ghost predicate Inv(s: State) {
    TableOk(s) && FirmwareOkay(s) && PhaseOk(s) && AbortsSent(s)
  }

  // ----- Changing the table -----

  lemma EntryRemoved(streams: map<StreamId, nat>, cameras: seq<CameraTask>, k: StreamId)
    requires Tabled(streams, cameras) && k in streams && cameras[streams[k]].end.Some?
    ensures Tabled(streams - {k}, cameras) && |streams - {k}| == |streams| - 1
  {
    assert (streams - {k}).Keys == streams.Keys - {k};
  }

  lemma FinishedRemoved(s: State)
    requires Tabled(s.streams, s.cameras)
    ensures Tabled(RetainRunning(s), s.cameras) && |RetainRunning(s)| <= |s.streams|
  {
    var kept := RetainRunning(s);
    assert s.streams.Keys == kept.Keys + (s.streams.Keys - kept.Keys);
    forall t: nat | t < |s.cameras| && s.cameras[t].end.None?
      ensures s.cameras[t].stream in kept && kept[s.cameras[t].stream] == t
    {
      assert Running(s, t);
    }
  }

  lemma AbortKept(streams: map<StreamId, nat>, cameras: seq<CameraTask>, t: nat)
    requires Tabled(streams, cameras) && Succession(cameras) && t < |cameras|
    ensures var aborted := cameras[t := cameras[t].(aborting := true)];
            Tabled(streams, aborted) && Succession(aborted)
  {
  }

  lemma CameraEndKept(streams: map<StreamId, nat>, cameras: seq<CameraTask>, t: nat, end: CameraEnd)
    requires Tabled(streams, cameras) && Succession(cameras) && t < |cameras|
    ensures var ended := cameras[t := cameras[t].(end := Some(end))];
            Tabled(streams, ended) && Succession(ended)
  {
  }

  lemma EntryAdded(streams: map<StreamId, nat>, cameras: seq<CameraTask>, k: StreamId)
    requires Tabled(streams, cameras) && k !in streams
    ensures Tabled(streams[k := |cameras|], cameras + [CameraTask(k, false, None)])
    ensures |streams[k := |cameras|]| == |streams| + 1
  {
    assert streams[k := |cameras|].Keys == streams.Keys + {k};
  }

  lemma SuccessorAdded(streams: map<StreamId, nat>, cameras: seq<CameraTask>, k: StreamId)
    requires Tabled(streams, cameras) && Succession(cameras) && k !in streams
    ensures Succession(cameras + [CameraTask(k, false, None)])
  {
  }

  // ----- Preservation -----

  lemma TaskStepKeeps(s: State, a: Action)
    requires Inv(s) && (a.CameraEnds? || a.FirmwareEnds?) && TaskStep(s, a).Some?
    ensures Inv(TaskStep(s, a).value)
  {
    if a.CameraEnds? {
      CameraEndKept(s.streams, s.cameras, a.task, a.cameraEnd);
    }
  }

  lemma StopCameraKeeps(s: State, stream: StreamId, reopen: bool)
    requires Inv(s) && !s.worker.Exited? && !s.main.JoiningCamera? && stream in s.streams
    ensures Inv(StopCamera(s, stream, reopen))
  {
    AbortKept(s.streams, s.cameras, s.streams[stream]);
  }

  lemma LockedSectionKeeps(s: State, command: CameraCommand)
    requires Inv(s) && s.worker.Locking? && !s.main.JoiningCamera?
    ensures Inv(LockedSection(s, command))
  {
    match command
    case Open(stream) =>
      FinishedRemoved(s);
      var kept := s.(streams := RetainRunning(s));
      assert Inv(kept);
      if stream in kept.streams {
        StopCameraKeeps(kept, stream, true);
      }
    case Close(stream) =>
      if stream in s.streams {
        StopCameraKeeps(s, stream, false);
      }
    case NoCommand =>
  }

  lemma SpawnCameraKeeps(s: State)
    requires Inv(s) && s.worker.Resolving?
    ensures Inv(SpawnCamera(s, s.worker.stream))
  {
    EntryAdded(s.streams, s.cameras, s.worker.stream);
    SuccessorAdded(s.streams, s.cameras, s.worker.stream);
  }

  lemma AfterJoinKeeps(s: State)
    requires Inv(s) && s.worker.Joining? && CameraReady(s, s.worker.stream)
    ensures Inv(AfterJoin(s, s.worker.stream, s.worker.reopen, s.cameras[s.streams[s.worker.stream]].end.value))
  {
    EntryRemoved(s.streams, s.cameras, s.worker.stream);
  }

  lemma WorkerStepKeeps(s: State, a: Action)
    requires Inv(s) && WorkerStep(s, a).Some?
    ensures Inv(WorkerStep(s, a).value)
  {
    match a
    case WorkerLocks => LockedSectionKeeps(s, s.worker.camera);
    case WorkerJoinsCamera => AfterJoinKeeps(s);
    case WorkerResolves => SpawnCameraKeeps(s);
    case _ =>
  }

  /** Joining a finished firmware task and recording it. */
  lemma JoinKeeps(s: State, f: nat)
    requires Inv(s) && FirmwareReady(s, f)
    ensures var joined := Record(JoinFirmware(s, f), FirmwareJoined(f, s.firmware[f].end.value));
            && TableOk(joined) && FirmwareOkay(joined) && AbortsSent(joined)
            && joined.outcome == OutcomeOf(joined.history)
            && |joined.joinSet| == |s.joinSet| - 1
  {
    FirstFailureOfAppend(s.history, FirmwareJoined(f, s.firmware[f].end.value));
  }

  lemma BreakKeeps(s: State, event: Event)
    requires TableOk(s) && InLoop(s.main)
    requires s.workerJoined ==> WorkerObserved(Record(s, event))
    requires s.outcome == OutcomeOf(s.history)
    requires FirmwareOkay(Record(s, event))
    ensures Inv(Break(s, event))
  {
    FirstFailureOfAppend(s.history, event);
  }

  lemma LoopJoinKeeps(s: State, f: nat, spawn: bool)
    requires Inv(s) && InLoop(s.main) && FirmwareReady(s, f)
    requires spawn || s.main.Selecting?
    ensures Inv(LoopJoin(s, f, spawn))
  {
    var event := FirmwareJoined(f, s.firmware[f].end.value);
    JoinKeeps(s, f);
    FirstFailureOfAppend(s.history, event);
    var joined := JoinFirmware(s, f);
    if FailureOf(event).Some? {
      BreakKeeps(joined, event);
    } else if spawn {
      SpawnFirmwareKeeps(Record(joined, event));
    }
  }

  lemma SpawnFirmwareKeeps(s: State)
    requires Inv(s) && InLoop(s.main) && |s.joinSet| < FIRMWARE_LIMIT
    ensures Inv(SpawnFirmware(s))
  {
    var t := SpawnFirmware(s);
    assert TableOk(t) && PhaseOk(t) && AbortsSent(t);
    FirmwareSpawned(s);
  }

  lemma FirmwareSpawned(s: State)
    requires FirmwareOkay(s) && |s.joinSet| < FIRMWARE_LIMIT
    ensures FirmwareOkay(SpawnFirmware(s))
  {
    var t := SpawnFirmware(s);
    assert forall f: nat | f < |s.firmware| :: t.firmware[f] == s.firmware[f];
  }

  /** Leaving the loop while the worker has not been joined. */
  lemma LeavingKeeps(s: State, event: Event)
    requires Inv(s) && InLoop(s.main)
    ensures Inv(Break(s, event))
  {
    BreakKeeps(s, event);
  }

  lemma WorkerSeenStoppedKeeps(s: State)
    requires Inv(s) && s.main.Selecting? && s.worker.Exited?
    ensures Inv(Break(s.(workerJoined := true), WorkerStopped(s.worker.end)))
  {
    BreakKeeps(s.(workerJoined := true), WorkerStopped(s.worker.end));
  }

  lemma LoopStepKeeps(s: State, a: Action)
    requires Inv(s) && LoopStep(s, a).Some?
    ensures Inv(LoopStep(s, a).value)
  {
    match a
    case FirmwareCommand => if |s.joinSet| < FIRMWARE_LIMIT { SpawnFirmwareKeeps(s); }
    case FullSetJoins(f) => LoopJoinKeeps(s, f, true);
    case FirmwareSeen(f) => LoopJoinKeeps(s, f, false);
    case SendFails => LeavingKeeps(s, SendRefused);
    case StreamFails(cause) => LeavingKeeps(s, StreamFailed(cause));
    case StreamEnds => LeavingKeeps(s, StreamEnded);
    case CancellationFires => LeavingKeeps(s, CancellationFired);
    case WorkerSeenStopped => WorkerSeenStoppedKeeps(s);
    case _ =>
  }

  lemma CameraAwaitedKeeps(s: State)
    requires Inv(s) && s.main.JoiningCamera? && CameraReady(s, s.main.stream)
    ensures Inv(TeardownStep(s, CameraAwaited).value)
  {
    var t := s.streams[s.main.stream];
    EntryRemoved(s.streams, s.cameras, s.main.stream);
    FirstFailureOfAppend(s.history, CameraJoined(t, s.cameras[t].end.value));
  }

  lemma CamerasLockedKeeps(s: State, choice: Option<StreamId>)
    requires Inv(s) && TeardownStep(s, CamerasLocked(choice)).Some?
    ensures Inv(TeardownStep(s, CamerasLocked(choice)).value)
  {
    if choice.Some? {
      AbortKept(s.streams, s.cameras, s.streams[choice.value]);
    }
  }

  lemma DrainKeeps(s: State, f: nat)
    requires Inv(s) && s.main.DrainingFirmware? && FirmwareReady(s, f)
    ensures Inv(TeardownStep(s, DrainJoins(f)).value)
  {
    JoinKeeps(s, f);
  }

  lemma WorkerAwaitedKeeps(s: State)
    requires Inv(s) && s.main.JoiningWorker? && s.worker.Exited?
    ensures Inv(TeardownStep(s, WorkerAwaited).value)
  {
    FirstFailureOfAppend(s.history, WorkerJoined(s.worker.end));
  }

  lemma TeardownStepKeeps(s: State, a: Action)
    requires Inv(s) && TeardownStep(s, a).Some?
    ensures Inv(TeardownStep(s, a).value)
  {
    match a
    case DrainJoins(f) => DrainKeeps(s, f);
    case DrainEmpty =>
    case WorkerAwaited => WorkerAwaitedKeeps(s);
    case CamerasLocked(choice) => CamerasLockedKeeps(s, choice);
    case CameraAwaited => CameraAwaitedKeeps(s);
    case _ =>
  }

  lemma StepKeeps(s: State, a: Action)
    requires Inv(s) && Step(s, a).Some?
    ensures Inv(Step(s, a).value)
  {
    if a.CameraEnds? || a.FirmwareEnds? {
      TaskStepKeeps(s, a);
    } else if IsWorkerAction(a) {
      WorkerStepKeeps(s, a);
    } else if IsTeardownAction(a) {
      TeardownStepKeeps(s, a);
    } else {
      LoopStepKeeps(s, a);
    }
  }

  lemma {:induction false} RunKeeps(actions: seq<Action>)
    requires Run(actions).Some?
    ensures Inv(Run(actions).value)
  {
    if actions != [] {
      var before := actions[..|actions| - 1];
      RunKeeps(before);
      StepKeeps(Run(before).value, actions[|actions| - 1]);
    }
  }

  // ----- Theorems -----

  /**
   In every run: a camera task that has not ended is in the table, the table never
   exceeds four entries, at most four firmware tasks are in the set, and a camera task
   starts only after every earlier task of its stream has ended.
  */
  lemma NothingIsLost(actions: seq<Action>)
    requires Run(actions).Some?
    ensures var s := Run(actions).value;
            && (forall t: nat | t < |s.cameras| ::
                  s.cameras[t].end.Some? || (s.cameras[t].stream in s.streams && s.streams[s.cameras[t].stream] == t))
            && |s.streams| <= 4
            && |s.joinSet| <= 4
            && (forall t: nat, u: nat | t < u < |s.cameras| && s.cameras[t].stream == s.cameras[u].stream ::
                  s.cameras[t].end.Some?)
  {
    RunKeeps(actions);
  }

  /**
   Whenever the stream returns, by whatever exit, no firmware task, worker or camera task
   is still running, and the result is the first failure observed, if there was one.
  */
  lemma ReturnLeavesNothingRunning(actions: seq<Action>)
    requires Run(actions).Some? && Run(actions).value.main.Done?
    ensures var s := Run(actions).value;
            && s.worker.Exited?
            && (forall t: nat | t < |s.cameras| :: s.cameras[t].end.Some?)
            && (forall f: nat | f < |s.firmware| ::
                  s.firmware[f].end.Some? && FirmwareJoined(f, s.firmware[f].end.value) in s.history)
            && s.outcome == OutcomeOf(s.history)
  {
    RunKeeps(actions);
  }

  /**
   The result is an error exactly when the loop or some join that was not a cancellation
   failed, and then it is the earliest such failure.
  */
  lemma ResultIsFirstFailure(actions: seq<Action>)
    requires Run(actions).Some? && Run(actions).value.main.Done?
    ensures var s := Run(actions).value;
            && (s.outcome.ConnectedThenEnded? <==>
                  forall i | 0 <= i < |s.history| :: FailureOf(s.history[i]).None?)
            && (s.outcome.Failed? ==>
                  exists i | 0 <= i < |s.history| ::
                    && FailureOf(s.history[i]) == Some(s.outcome.error)
                    && forall j | 0 <= j < i :: FailureOf(s.history[j]).None?)
  {
    RunKeeps(actions);
    FirstFailureIsFirst(Run(actions).value.history);
  }

  lemma ObservedFailureSurfaces(history: seq<Event>, event: Event)
    requires event in history && FailureOf(event).Some?
    ensures OutcomeOf(history).Failed?
  {
    FirstFailureIsFirst(history);
  }

  /** A failed or panicked firmware task always surfaces as an error result. */
  lemma FirmwareFailureSurfaces(actions: seq<Action>, f: nat)
    requires Run(actions).Some? && Run(actions).value.main.Done?
    requires f < |Run(actions).value.firmware|
    requires var end := Run(actions).value.firmware[f].end;
             end.Some? && (end.value.FirmwareFailed? || end.value.FirmwarePanicked?)
    ensures Run(actions).value.outcome.Failed?
  {
    ReturnLeavesNothingRunning(actions);
    var s := Run(actions).value;
    ObservedFailureSurfaces(s.history, FirmwareJoined(f, s.firmware[f].end.value));
  }

  /** So does a worker that failed or panicked, whether the loop or teardown saw it. */
  lemma WorkerFailureSurfaces(actions: seq<Action>)
    requires Run(actions).Some? && Run(actions).value.main.Done?
    requires var worker := Run(actions).value.worker;
             worker.Exited? && (worker.end.WorkerFailed? || worker.end.WorkerPanicked?)
    ensures Run(actions).value.outcome.Failed?
  {
    WorkerIsObserved(actions);
    ObservedWorkerSurfaces(Run(actions).value);
  }

  lemma ObservedWorkerSurfaces(s: State)
    requires WorkerObserved(s) && (s.worker.end.WorkerFailed? || s.worker.end.WorkerPanicked?)
    requires s.outcome == OutcomeOf(s.history)
    ensures s.outcome.Failed?
  {
    var joined, stopped := WorkerJoined(s.worker.end), WorkerStopped(s.worker.end);
    ObservedFailureSurfaces(s.history, if joined in s.history then joined else stopped);
  }

  lemma WorkerIsObserved(actions: seq<Action>)
    requires Run(actions).Some? && Run(actions).value.main.Done?
    ensures WorkerObserved(Run(actions).value) && Run(actions).value.outcome == OutcomeOf(Run(actions).value.history)
  {
    RunKeeps(actions);
  }

  predicate EndsATask(a: Action) {
    a.CameraEnds? || a.FirmwareEnds?
  }

  predicate InCameraTeardown(m: Main) {
    m.LockingCameras? || m.JoiningCamera? || m.Done?
  }

  /** Task `t` is still in the table under `k`, or was joined with its own result. */
  ghost predicate TabledOrJoined(s: State, k: StreamId, t: nat) {
    && t < |s.cameras| && s.cameras[t].stream == k
    && (|| (k in s.streams && s.streams[k] == t)
        || (s.cameras[t].end.Some? && CameraJoined(t, s.cameras[t].end.value) in s.history))
  }

  lemma TaskEndKeepsTabledOrJoined(s: State, a: Action, k: StreamId, t: nat)
    requires EndsATask(a) && TaskStep(s, a).Some? && TabledOrJoined(s, k, t)
    ensures TaskStep(s, a).value.main == s.main && TabledOrJoined(TaskStep(s, a).value, k, t)
  {
  }

  lemma TeardownKeepsTabledOrJoined(s: State, a: Action, k: StreamId, t: nat)
    requires InCameraTeardown(s.main) && TabledOrJoined(s, k, t) && TeardownStep(s, a).Some?
    ensures InCameraTeardown(TeardownStep(s, a).value.main) && TabledOrJoined(TeardownStep(s, a).value, k, t)
  {
  }

  /** By then the worker is gone, so nothing but teardown takes an entry out of the table. */
  lemma StaysTabledOrJoined(s: State, a: Action, k: StreamId, t: nat)
    requires s.worker.Exited? && InCameraTeardown(s.main) && TabledOrJoined(s, k, t) && Step(s, a).Some?
    ensures InCameraTeardown(Step(s, a).value.main) && TabledOrJoined(Step(s, a).value, k, t)
  {
    if EndsATask(a) {
      TaskEndKeepsTabledOrJoined(s, a, k, t);
    } else if IsTeardownAction(a) {
      TeardownKeepsTabledOrJoined(s, a, k, t);
    }
  }

  lemma RunLastStep(actions: seq<Action>, more: seq<Action>)
    requires more != [] && Run(actions + more).Some?
    ensures var before := Run(actions + more[..|more| - 1]);
            before.Some? && Run(actions + more) == Step(before.value, more[|more| - 1])
  {
    assert (actions + more)[..|actions + more| - 1] == actions + more[..|more| - 1];
  }

  lemma {:induction false} RunKeepsTabledOrJoined(actions: seq<Action>, more: seq<Action>, k: StreamId, t: nat)
    requires Run(actions).Some? && Run(actions + more).Some?
    requires InCameraTeardown(Run(actions).value.main) && TabledOrJoined(Run(actions).value, k, t)
    ensures InCameraTeardown(Run(actions + more).value.main) && TabledOrJoined(Run(actions + more).value, k, t)
    decreases |more|
  {
    if more == [] {
      assert actions + more == actions;
    } else {
      RunLastStep(actions, more);
      var before := more[..|more| - 1];
      RunKeepsTabledOrJoined(actions, before, k, t);
      WorkerIsGone(actions + before);
      StaysTabledOrJoined(Run(actions + before).value, more[|more| - 1], k, t);
    }
  }

  lemma EntryIsTabled(actions: seq<Action>, k: StreamId)
    requires Run(actions).Some? && k in Run(actions).value.streams
    ensures TabledOrJoined(Run(actions).value, k, Run(actions).value.streams[k])
  {
    RunKeeps(actions);
  }

  lemma WorkerIsGone(actions: seq<Action>)
    requires Run(actions).Some? && InCameraTeardown(Run(actions).value.main)
    ensures Run(actions).value.worker.Exited?
  {
    RunKeeps(actions);
  }

  lemma TableIsEmpty(actions: seq<Action>)
    requires Run(actions).Some? && Run(actions).value.main.Done?
    ensures Run(actions).value.streams == map[] && Run(actions).value.outcome == OutcomeOf(Run(actions).value.history)
  {
    RunKeeps(actions);
  }

  lemma JoinSurfaces(s: State, k: StreamId, t: nat)
    requires TabledOrJoined(s, k, t) && s.streams == map[] && s.outcome == OutcomeOf(s.history)
    ensures s.cameras[t].end.Some? && CameraJoined(t, s.cameras[t].end.value) in s.history
    ensures s.cameras[t].end.value.CameraPanicked? ==> s.outcome.Failed?
  {
    if s.cameras[t].end.value.CameraPanicked? {
      ObservedFailureSurfaces(s.history, CameraJoined(t, s.cameras[t].end.value));
    }
  }

  /**
   And so does a camera task: every task in the table when teardown comes to the cameras is
   joined with its own result before the return, and a panic makes that an error.
  */
  lemma CameraPanicSurfaces(actions: seq<Action>, more: seq<Action>, k: StreamId)
    requires Run(actions).Some? && InCameraTeardown(Run(actions).value.main) && k in Run(actions).value.streams
    requires Run(actions + more).Some? && Run(actions + more).value.main.Done?
    ensures var t, s := Run(actions).value.streams[k], Run(actions + more).value;
            && t < |s.cameras| && s.cameras[t].stream == k && s.cameras[t].end.Some?
            && CameraJoined(t, s.cameras[t].end.value) in s.history
            && (s.cameras[t].end.value.CameraPanicked? ==> s.outcome.Failed?)
  {
    var t := Run(actions).value.streams[k];
    EntryIsTabled(actions, k);
    RunKeepsTabledOrJoined(actions, more, k, t);
    TableIsEmpty(actions + more);
    JoinSurfaces(Run(actions + more).value, k, t);
  }

  // ----- Teardown cannot get stuck -----

  /** The steps of teardown, and the ends of what it waits for. */
  predicate IsTeardownOrEnd(a: Action) {
    IsTeardownAction(a) || EndsATask(a) || a.WorkerIsCancelled?
  }

  function TeardownPhase(m: Main): nat {
    match m
    case DrainingFirmware => 3
    case JoiningWorker => 2
    case LockingCameras => 1
    case JoiningCamera(_) => 1
    case Done => 0
    case _ => 4
  }

  /** Joins still owed by the current phase; an aborted camera is one step closer. */
  ghost function Owed(s: State): nat {
    |s.joinSet| + 2 * |s.streams| + if s.main.JoiningCamera? then 0 else 1
  }

  /** One when teardown waits for a task that has not ended yet. */
  ghost function Waiting(s: State): nat {
    match s.main
    case DrainingFirmware => if s.joinSet == {} || (exists f :: FirmwareReady(s, f)) then 0 else 1
    case JoiningWorker => if s.worker.Exited? then 0 else 1
    case JoiningCamera(stream) => if CameraReady(s, stream) then 0 else 1
    case _ => 0
  }

  ghost predicate Nearer(t: State, s: State) {
    || TeardownPhase(t.main) < TeardownPhase(s.main)
    || (TeardownPhase(t.main) == TeardownPhase(s.main)
        && (Owed(t) < Owed(s) || (Owed(t) == Owed(s) && Waiting(t) < Waiting(s))))
  }

  /** Each teardown step moves to a later phase or reduces what its phase still owes. */
  lemma TeardownDescends(s: State, a: Action)
    requires Inv(s) && IsTeardownAction(a) && TeardownStep(s, a).Some?
    ensures var t := TeardownStep(s, a).value;
            || TeardownPhase(t.main) < TeardownPhase(s.main)
            || (TeardownPhase(t.main) == TeardownPhase(s.main) && Owed(t) < Owed(s))
  {
    match a
    case DrainJoins(f) => JoinKeeps(s, f);
    case CameraAwaited => EntryRemoved(s.streams, s.cameras, s.main.stream);
    case _ =>
  }

  /** A firmware task that was told to abort ends, if none has ended yet. */
  lemma DrainCanAdvance(s: State) returns (a: Action)
    requires Inv(s) && s.main.DrainingFirmware?
    ensures (IsTeardownAction(a) && TeardownStep(s, a).Some?)
            || (EndsATask(a) && TaskStep(s, a).Some? && TaskStep(s, a).value.main == s.main
                && Nearer(TaskStep(s, a).value, s))
  {
    if s.joinSet == {} {
      a := DrainEmpty;
    } else if Waiting(s) == 0 {
      var f :| FirmwareReady(s, f);
      a := DrainJoins(f);
    } else {
      var f :| f in s.joinSet;
      assert !FirmwareReady(s, f);
      a := FirmwareEnds(f, FirmwareCancelled);
      assert FirmwareReady(TaskStep(s, a).value, f);
    }
  }

  lemma CamerasCanAdvance(s: State) returns (a: Action)
    requires Inv(s) && (s.main.LockingCameras? || s.main.JoiningCamera?)
    ensures (IsTeardownAction(a) && TeardownStep(s, a).Some?)
            || (EndsATask(a) && TaskStep(s, a).Some? && TaskStep(s, a).value.main == s.main
                && Nearer(TaskStep(s, a).value, s))
  {
    if s.main.LockingCameras? {
      if s.streams == map[] {
        a := CamerasLocked(None);
      } else {
        assert s.streams.Keys != {};
        var k :| k in s.streams.Keys;
        a := CamerasLocked(Some(k));
      }
    } else if CameraReady(s, s.main.stream) {
      a := CameraAwaited;
    } else {
      a := CameraEnds(s.streams[s.main.stream], CameraCancelled);
    }
  }

  lemma StateCanAdvance(s: State) returns (a: Action)
    requires Inv(s) && !InLoop(s.main) && !s.main.Done?
    ensures IsTeardownOrEnd(a) && Step(s, a).Some?
    ensures !InLoop(Step(s, a).value.main) && Nearer(Step(s, a).value, s)
  {
    if s.main.DrainingFirmware? {
      a := DrainCanAdvance(s);
    } else if s.main.JoiningWorker? {
      a := if s.worker.Exited? then WorkerAwaited else WorkerIsCancelled;
    } else {
      a := CamerasCanAdvance(s);
    }
    if IsTeardownAction(a) {
      TeardownDescends(s, a);
    }
  }

  /**
   From every reachable teardown state an action is enabled that advances teardown or
   ends a task it waits for, and brings the return nearer: the table's lock is free, and
   everything awaited has been told to abort.
  */
  lemma TeardownCanAdvance(actions: seq<Action>) returns (a: Action)
    requires Run(actions).Some?
    requires !InLoop(Run(actions).value.main) && !Run(actions).value.main.Done?
    ensures IsTeardownOrEnd(a) && Run(actions + [a]).Some?
    ensures !InLoop(Run(actions + [a]).value.main) && Nearer(Run(actions + [a]).value, Run(actions).value)
  {
    RunKeeps(actions);
    a := StateCanAdvance(Run(actions).value);
    assert (actions + [a])[..|actions + [a]| - 1] == actions;
  }

  /**
   Teardown can always finish: every run that has left the loop has a continuation to the
   return, made only of teardown steps and of the ends of tasks told to abort.
  */
  lemma {:induction false} TeardownFinishes(actions: seq<Action>) returns (more: seq<Action>)
    requires Run(actions).Some? && !InLoop(Run(actions).value.main)
    ensures Run(actions + more).Some? && Run(actions + more).value.main.Done?
    ensures forall k | 0 <= k < |more| :: IsTeardownOrEnd(more[k])
    decreases TeardownPhase(Run(actions).value.main), Owed(Run(actions).value), Waiting(Run(actions).value)
  {
    if Run(actions).value.main.Done? {
      more := [];
      assert actions + more == actions;
    } else {
      var a := TeardownCanAdvance(actions);
      var rest := TeardownFinishes(actions + [a]);
      more := [a] + rest;
      Reassociate(actions, a, rest);
    }
  }

  lemma Reassociate(actions: seq<Action>, a: Action, rest: seq<Action>)
    ensures actions + ([a] + rest) == actions + [a] + rest
  {
  }
}
