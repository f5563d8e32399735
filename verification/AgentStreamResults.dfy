/**
 What `run_command_stream_until_cancelled` of crates/pandar-agent/src/command_stream.rs
 returns, told from the actions of a run and from how its tasks ended.
*/
module AgentStreamResults {
  import opened Basics
  import opened AgentStream
  import opened AgentStreamTheorems

  lemma RunFront(actions: seq<Action>)
    requires actions != [] && Run(actions).Some?
    ensures var before := Run(actions[..|actions| - 1]);
            before.Some? && Step(before.value, actions[|actions| - 1]) == Run(actions)
  {
  }

  // ----- A failure is final -----

  lemma OutcomeStays(s: State, a: Action)
    requires Step(s, a).Some? && s.outcome.Failed?
    ensures Step(s, a).value.outcome == s.outcome
  {
    if !a.CameraEnds? && !a.FirmwareEnds? {
      if IsWorkerAction(a) {
        WorkerKeepsOutcome(s, a);
      } else if !IsTeardownAction(a) {
        LoopOutcomeStays(s, a);
      }
    }
  }

  lemma WorkerKeepsOutcome(s: State, a: Action)
    requires WorkerStep(s, a).Some?
    ensures WorkerStep(s, a).value.outcome == s.outcome && WorkerStep(s, a).value.history == s.history
  {
  }

  lemma LoopOutcomeStays(s: State, a: Action)
    requires LoopStep(s, a).Some? && s.outcome.Failed?
    ensures LoopStep(s, a).value.outcome == s.outcome
  {
  }

  lemma {:induction false} FailedIsFinal(actions: seq<Action>, n: nat)
    requires Run(actions).Some? && n <= |actions|
    requires Run(actions[..n]).Some? && Run(actions[..n]).value.outcome.Failed?
    ensures Run(actions).value.outcome == Run(actions[..n]).value.outcome
  {
    if n == |actions| {
      assert actions[..n] == actions;
    } else {
      RunFront(actions);
      var before := actions[..|actions| - 1];
      assert before[..n] == actions[..n];
      FailedIsFinal(before, n);
      OutcomeStays(Run(before).value, actions[|actions| - 1]);
    }
  }

  lemma {:induction false} RunPrefix(actions: seq<Action>, p: nat)
    requires Run(actions).Some? && p < |actions|
    ensures Run(actions[..p]).Some? && Step(Run(actions[..p]).value, actions[p]) == Run(actions[..p + 1])
    ensures Run(actions[..p + 1]).Some?
  {
    RunFront(actions);
    if p < |actions| - 1 {
      var before := actions[..|actions| - 1];
      assert before[..p] == actions[..p] && before[..p + 1] == actions[..p + 1];
      RunPrefix(before, p);
    } else {
      assert actions[..p + 1] == actions;
    }
  }

  lemma LoopHasNoFailure(actions: seq<Action>)
    requires Run(actions).Some? && InLoop(Run(actions).value.main)
    ensures Run(actions).value.outcome == ConnectedThenEnded
  {
    RunKeeps(actions);
  }

  // ----- Leaving the loop by a failure -----

  /** The error an end of the worker gives when the loop sees it: even a plain return is unexpected. */
  ghost predicate StoppedWith(end: WorkerEnd, error: Error) {
    || (end == WorkerReturned && error == WorkerEndedUnexpectedly)
    || (exists cause :: end == WorkerFailed(cause) && error == WorkerRun(cause))
    || (exists cause :: end == WorkerPanicked(cause) && error == WorkerJoin(cause))
    || (end == WorkerCancelled && error == WorkerJoin("cancelled"))
  }

  ghost predicate JoinedWith(end: FirmwareEnd, error: Error) {
    || (exists cause :: end == FirmwareFailed(cause) && error == FirmwareRun(cause))
    || (exists cause :: end == FirmwarePanicked(cause) && error == FirmwareJoin(cause))
  }

  /** In state `s` the action makes the loop end with `error`. */
  ghost predicate LeavesWith(s: State, a: Action, error: Error) {
    match a
    case StreamFails(cause) => error == StreamRead(cause)
    case SendFails => error == WorkerEndedOnSend
    case WorkerSeenStopped => s.worker.Exited? && StoppedWith(s.worker.end, error)
    case FirmwareSeen(f) => f < |s.firmware| && s.firmware[f].end.Some? && JoinedWith(s.firmware[f].end.value, error)
    case FullSetJoins(f) => f < |s.firmware| && s.firmware[f].end.Some? && JoinedWith(s.firmware[f].end.value, error)
    case _ => false
  }

  lemma LeavingFails(s: State, a: Action, error: Error)
    requires Step(s, a).Some? && s.outcome == ConnectedThenEnded && LeavesWith(s, a, error)
    ensures Step(s, a).value.outcome == Failed(error)
  {
    match a
    case StreamFails(cause) => BreakFails(s, StreamFailed(cause), error);
    case SendFails => BreakFails(s, SendRefused, error);
    case WorkerSeenStopped => BreakFails(s.(workerJoined := true), WorkerStopped(s.worker.end), error);
    case FirmwareSeen(f) => JoinFails(s, f, false, error);
    case FullSetJoins(f) => JoinFails(s, f, true, error);
  }

  lemma BreakFails(s: State, event: Event, error: Error)
    requires s.outcome == ConnectedThenEnded && FailureOf(event) == Some(error)
    ensures Break(s, event).outcome == Failed(error)
  {
  }

  lemma JoinFails(s: State, f: nat, spawn: bool, error: Error)
    requires FirmwareReady(s, f) && s.outcome == ConnectedThenEnded && JoinedWith(s.firmware[f].end.value, error)
    ensures LoopJoin(s, f, spawn).outcome == Failed(error)
  {
    BreakFails(JoinFirmware(s, f), FirmwareJoined(f, s.firmware[f].end.value), error);
  }

  /** The loop ended with an error: the result is that error, whatever teardown finds. */
  lemma LoopFailureIsResult(actions: seq<Action>, p: nat, error: Error)
    requires Run(actions).Some? && p < |actions|
    requires Run(actions[..p]).Some? && LeavesWith(Run(actions[..p]).value, actions[p], error)
    ensures Run(actions).value.outcome == Failed(error)
  {
    RunPrefix(actions, p);
    LeavingFromLoop(Run(actions[..p]).value, actions[p], error);
    LoopHasNoFailure(actions[..p]);
    LeavingFails(Run(actions[..p]).value, actions[p], error);
    FailedIsFinal(actions, p + 1);
  }

  lemma LeavingFromLoop(s: State, a: Action, error: Error)
    requires Step(s, a).Some? && LeavesWith(s, a, error)
    ensures InLoop(s.main)
  {
  }

  // ----- Every error has its cause -----

  /** What the main task says it observed did happen. */
  ghost predicate IsTrue(actions: seq<Action>, s: State, event: Event) {
    match event
    case StreamEnded => StreamEnds in actions
    case CancellationFired => CancellationFires in actions
    case StreamFailed(cause) => StreamFails(cause) in actions
    case SendRefused => SendFails in actions
    case WorkerStopped(end) => s.worker == Exited(end) && WorkerSeenStopped in actions
    case WorkerJoined(end) => s.worker == Exited(end)
    case FirmwareJoined(f, end) => f < |s.firmware| && s.firmware[f].end == Some(end)
    case CameraJoined(t, end) => t < |s.cameras| && s.cameras[t].end == Some(end)
  }

  /** Ends are final. */
  ghost predicate EndsKept(s: State, t: State) {
    && (s.worker.Exited? ==> t.worker == s.worker)
    && |s.firmware| <= |t.firmware| && |s.cameras| <= |t.cameras|
    && (forall f: nat | f < |s.firmware| && s.firmware[f].end.Some? :: t.firmware[f].end == s.firmware[f].end)
    && (forall c: nat | c < |s.cameras| && s.cameras[c].end.Some? :: t.cameras[c].end == s.cameras[c].end)
  }

  lemma StepKeepsEnds(s: State, a: Action)
    requires Step(s, a).Some?
    ensures EndsKept(s, Step(s, a).value)
  {
    if a.CameraEnds? || a.FirmwareEnds? {
    } else if IsWorkerAction(a) {
      WorkerKeepsEnds(s, a);
    } else if IsTeardownAction(a) {
    } else {
      LoopKeepsEnds(s, a);
    }
  }

  lemma WorkerKeepsEnds(s: State, a: Action)
    requires WorkerStep(s, a).Some?
    ensures EndsKept(s, WorkerStep(s, a).value)
  {
  }

  lemma LoopKeepsEnds(s: State, a: Action)
    requires LoopStep(s, a).Some?
    ensures EndsKept(s, LoopStep(s, a).value)
  {
  }

  lemma TruthStays(actions: seq<Action>, s: State, a: Action, t: State, event: Event)
    requires EndsKept(s, t) && IsTrue(actions, s, event)
    ensures IsTrue(actions + [a], t, event)
  {
  }

  /** A step adds at most one event, a true one. */
  lemma NewEventIsTrue(actions: seq<Action>, s: State, a: Action) returns (event: Event)
    requires Step(s, a).Some?
    ensures var t := Step(s, a).value;
            t.history == s.history || (t.history == s.history + [event] && IsTrue(actions + [a], t, event))
  {
    assert a in actions + [a];
    event :=
      match a
      case StreamEnds => StreamEnded
      case CancellationFires => CancellationFired
      case StreamFails(cause) => StreamFailed(cause)
      case SendFails => SendRefused
      case WorkerSeenStopped => WorkerStopped(s.worker.end)
      case WorkerAwaited => WorkerJoined(s.worker.end)
      case FirmwareSeen(f) => FirmwareJoined(f, s.firmware[f].end.value)
      case FullSetJoins(f) => FirmwareJoined(f, s.firmware[f].end.value)
      case DrainJoins(f) => FirmwareJoined(f, s.firmware[f].end.value)
      case CameraAwaited => CameraJoined(s.streams[s.main.stream], s.cameras[s.streams[s.main.stream]].end.value)
      case _ => StreamEnded;
    if IsWorkerAction(a) {
      WorkerKeepsOutcome(s, a);
    } else if IsTeardownAction(a) {
      TeardownEventIsTrue(actions, s, a, event);
    } else if !a.CameraEnds? && !a.FirmwareEnds? {
      LoopEventIsTrue(actions, s, a, event);
    }
  }

  lemma TeardownEventIsTrue(actions: seq<Action>, s: State, a: Action, event: Event)
    requires TeardownStep(s, a).Some?
    requires a.WorkerAwaited? ==> event == WorkerJoined(s.worker.end)
    requires a.DrainJoins? ==> event == FirmwareJoined(a.task, s.firmware[a.task].end.value)
    requires a.CameraAwaited? ==>
               event == CameraJoined(s.streams[s.main.stream], s.cameras[s.streams[s.main.stream]].end.value)
    ensures var t := TeardownStep(s, a).value;
            t.history == s.history || (t.history == s.history + [event] && IsTrue(actions + [a], t, event))
  {
  }

  lemma LoopEventIsTrue(actions: seq<Action>, s: State, a: Action, event: Event)
    requires LoopStep(s, a).Some?
    requires match a
             case StreamEnds => event == StreamEnded
             case CancellationFires => event == CancellationFired
             case StreamFails(cause) => event == StreamFailed(cause)
             case SendFails => event == SendRefused
             case WorkerSeenStopped => event == WorkerStopped(s.worker.end)
             case FirmwareSeen(f) => event == FirmwareJoined(f, s.firmware[f].end.value)
             case FullSetJoins(f) => event == FirmwareJoined(f, s.firmware[f].end.value)
             case _ => true
    ensures var t := LoopStep(s, a).value;
            t.history == s.history || (t.history == s.history + [event] && IsTrue(actions + [a], t, event))
  {
    assert a in actions + [a];
  }

  lemma {:induction false} HistoryIsTrue(actions: seq<Action>, event: Event)
    requires Run(actions).Some? && event in Run(actions).value.history
    ensures IsTrue(actions, Run(actions).value, event)
  {
    if actions != [] {
      RunFront(actions);
      var before, a := actions[..|actions| - 1], actions[|actions| - 1];
      var s := Run(before).value;
      assert actions == before + [a];
      var added := NewEventIsTrue(before, s, a);
      if event in s.history {
        HistoryIsTrue(before, event);
        StepKeepsEnds(s, a);
        TruthStays(before, s, a, Run(actions).value, event);
      }
    }
  }

  /** What must have happened for the result to be a given error. */
  ghost predicate HasCause(actions: seq<Action>, s: State, error: Error) {
    match error
    case StreamRead(cause) => StreamFails(cause) in actions
    case WorkerEndedOnSend => SendFails in actions
    case WorkerEndedUnexpectedly => s.worker == Exited(WorkerReturned) && WorkerSeenStopped in actions
    case WorkerRun(cause) => s.worker == Exited(WorkerFailed(cause))
    case WorkerJoin(cause) =>
      || s.worker == Exited(WorkerPanicked(cause))
      || (s.worker == Exited(WorkerCancelled) && WorkerSeenStopped in actions)
    case FirmwareRun(cause) => exists f: nat | f < |s.firmware| :: s.firmware[f].end == Some(FirmwareFailed(cause))
    case FirmwareJoin(cause) => exists f: nat | f < |s.firmware| :: s.firmware[f].end == Some(FirmwarePanicked(cause))
    case CameraJoin(cause) => exists t: nat | t < |s.cameras| :: s.cameras[t].end == Some(CameraPanicked(cause))
  }

  lemma FailureHasCause(actions: seq<Action>, s: State, event: Event)
    requires IsTrue(actions, s, event) && FailureOf(event).Some?
    ensures HasCause(actions, s, FailureOf(event).value)
  {
  }

  /** An error result is never made up: what it names is in the run or in how a task ended. */
  lemma ErrorHasCause(actions: seq<Action>)
    requires Run(actions).Some? && Run(actions).value.outcome.Failed?
    ensures HasCause(actions, Run(actions).value, Run(actions).value.outcome.error)
  {
    OutcomeIsHistory(actions);
    var history := Run(actions).value.history;
    FirstFailureIsFirst(history);
    var i :| 0 <= i < |history| && FailureOf(history[i]) == FirstFailure(history);
    HistoryIsTrue(actions, history[i]);
    FailureHasCause(actions, Run(actions).value, history[i]);
  }

  lemma OutcomeIsHistory(actions: seq<Action>)
    requires Run(actions).Some?
    ensures Run(actions).value.outcome == OutcomeOf(Run(actions).value.history)
  {
    RunKeeps(actions);
  }

  /** Nothing in the run and no end of a task is a failure. */
  ghost predicate NothingFailed(actions: seq<Action>, s: State) {
    && (forall cause :: StreamFails(cause) !in actions) && SendFails !in actions && WorkerSeenStopped !in actions
    && (s.worker.Exited? ==> s.worker.end == WorkerReturned || s.worker.end == WorkerCancelled)
    && (forall f: nat | f < |s.firmware| ::
          s.firmware[f].end == None || s.firmware[f].end == Some(FirmwareOk)
          || s.firmware[f].end == Some(FirmwareCancelled))
    && (forall t: nat | t < |s.cameras| ::
          s.cameras[t].end == None || s.cameras[t].end == Some(CameraReturned)
          || s.cameras[t].end == Some(CameraCancelled))
  }

  /** A run in which nothing failed, only ended or was cancelled, returns without an error. */
  lemma CleanRunSucceeds(actions: seq<Action>)
    requires Run(actions).Some? && NothingFailed(actions, Run(actions).value)
    ensures Run(actions).value.outcome == ConnectedThenEnded
  {
    if Run(actions).value.outcome.Failed? {
      ErrorHasCause(actions);
    }
  }

  // ----- Every handle is joined once -----

  /** A task whose end the main task awaits. */
  datatype Handle = WorkerHandle | FirmwareHandle(f: nat) | CameraHandle(t: nat)

  predicate IsJoinOf(event: Event, handle: Handle) {
    match handle
    case WorkerHandle => event.WorkerStopped? || event.WorkerJoined?
    case FirmwareHandle(f) => event.FirmwareJoined? && event.task == f
    case CameraHandle(t) => event.CameraJoined? && event.task == t
  }

  function Joins(history: seq<Event>, handle: Handle): nat {
    if history == [] then 0
    else Joins(history[..|history| - 1], handle) + if IsJoinOf(history[|history| - 1], handle) then 1 else 0
  }

  lemma JoinsAppend(history: seq<Event>, event: Event, handle: Handle)
    ensures Joins(history + [event], handle) == Joins(history, handle) + if IsJoinOf(event, handle) then 1 else 0
  {
    assert (history + [event])[..|history + [event]| - 1] == history;
  }

  /** The main task has not joined the handle: it still owns it, or it does not exist yet. */
  ghost predicate Unjoined(s: State, handle: Handle) {
    match handle
    case WorkerHandle => !s.workerJoined
    case FirmwareHandle(f) => f in s.joinSet || f >= |s.firmware|
    case CameraHandle(t) => t in s.streams.Values || t >= |s.cameras|
  }

  ghost predicate JoinedOnce(s: State, handle: Handle) {
    if Unjoined(s, handle) then Joins(s.history, handle) == 0
    else Joins(s.history, handle) <= 1 && (!handle.CameraHandle? ==> Joins(s.history, handle) == 1)
  }

  /** A step that records nothing gives no joined handle back. */
  ghost predicate GivesNothingBack(s: State, t: State, handle: Handle) {
    && (Unjoined(t, handle) ==> Unjoined(s, handle))
    && (!handle.CameraHandle? && Unjoined(s, handle) ==> Unjoined(t, handle))
  }

  lemma SameHistoryKeepsOnce(s: State, t: State, handle: Handle)
    requires JoinedOnce(s, handle) && t.history == s.history && GivesNothingBack(s, t, handle)
    ensures JoinedOnce(t, handle)
  {
  }

  lemma NewEventKeepsOnce(s: State, t: State, event: Event, handle: Handle)
    requires JoinedOnce(s, handle) && t.history == s.history + [event]
    requires if IsJoinOf(event, handle) then Unjoined(s, handle) && !Unjoined(t, handle)
             else GivesNothingBack(s, t, handle)
    ensures JoinedOnce(t, handle)
  {
    JoinsAppend(s.history, event, handle);
  }

  /** The entries of `t` are entries of `s` or of a task that is new. */
  ghost predicate EntriesFrom(s: State, t: State) {
    && |s.cameras| <= |t.cameras|
    && (forall k | k in t.streams :: (k in s.streams && s.streams[k] == t.streams[k]) || t.streams[k] == |s.cameras|)
    && t.workerJoined == s.workerJoined && t.joinSet == s.joinSet && |t.firmware| == |s.firmware|
  }

  lemma WorkerEntries(s: State, a: Action)
    requires WorkerStep(s, a).Some?
    ensures EntriesFrom(s, WorkerStep(s, a).value)
  {
    if a.WorkerLocks? {
      LockedEntries(s, s.worker.camera);
    }
  }

  lemma LockedEntries(s: State, command: CameraCommand)
    ensures EntriesFrom(s, LockedSection(s, command))
  {
  }

  lemma EntriesGiveNothingBack(s: State, t: State, handle: Handle)
    requires EntriesFrom(s, t)
    ensures GivesNothingBack(s, t, handle)
  {
    if handle.CameraHandle? && handle.t in t.streams.Values {
      var k :| k in t.streams && t.streams[k] == handle.t;
      assert k in s.streams && s.streams[k] == handle.t ==> handle.t in s.streams.Values;
    }
  }

  lemma BreakKeepsOnce(s: State, event: Event, handle: Handle)
    requires JoinedOnce(s, handle) && !IsJoinOf(event, handle)
    ensures JoinedOnce(Break(s, event), handle)
  {
    NewEventKeepsOnce(s, Break(s, event), event, handle);
  }

  lemma LoopJoinKeepsOnce(s: State, f: nat, spawn: bool, handle: Handle)
    requires FirmwareOkay(s) && FirmwareReady(s, f) && JoinedOnce(s, handle)
    ensures JoinedOnce(LoopJoin(s, f, spawn), handle)
  {
    NewEventKeepsOnce(s, LoopJoin(s, f, spawn), FirmwareJoined(f, s.firmware[f].end.value), handle);
  }

  lemma StoppedKeepsOnce(s: State, handle: Handle)
    requires !s.workerJoined && JoinedOnce(s, handle) && s.worker.Exited?
    ensures JoinedOnce(Break(s.(workerJoined := true), WorkerStopped(s.worker.end)), handle)
  {
    var t := Break(s.(workerJoined := true), WorkerStopped(s.worker.end));
    NewEventKeepsOnce(s, t, WorkerStopped(s.worker.end), handle);
  }

  lemma CommandKeepsOnce(s: State, handle: Handle)
    requires JoinedOnce(s, handle) && LoopStep(s, FirmwareCommand).Some?
    ensures JoinedOnce(LoopStep(s, FirmwareCommand).value, handle)
  {
    SameHistoryKeepsOnce(s, LoopStep(s, FirmwareCommand).value, handle);
  }

  lemma LoopKeepsOnce(s: State, a: Action, handle: Handle)
    requires FirmwareOkay(s) && !s.workerJoined && JoinedOnce(s, handle) && LoopStep(s, a).Some?
    ensures JoinedOnce(LoopStep(s, a).value, handle)
  {
    match a
    case FullSetJoins(f) => LoopJoinKeepsOnce(s, f, true, handle);
    case FirmwareSeen(f) => LoopJoinKeepsOnce(s, f, false, handle);
    case SendFails => BreakKeepsOnce(s, SendRefused, handle);
    case StreamFails(cause) => BreakKeepsOnce(s, StreamFailed(cause), handle);
    case StreamEnds => BreakKeepsOnce(s, StreamEnded, handle);
    case CancellationFires => BreakKeepsOnce(s, CancellationFired, handle);
    case WorkerSeenStopped => StoppedKeepsOnce(s, handle);
    case FirmwareCommand => CommandKeepsOnce(s, handle);
    case _ =>
  }

  lemma CameraJoinKeepsOnce(s: State, handle: Handle)
    requires TableOk(s) && JoinedOnce(s, handle) && TeardownStep(s, CameraAwaited).Some?
    ensures JoinedOnce(TeardownStep(s, CameraAwaited).value, handle)
  {
    var t := TeardownStep(s, CameraAwaited).value;
    var task := s.streams[s.main.stream];
    assert task in s.streams.Values;
    forall k | k in t.streams
      ensures k in s.streams && t.streams[k] == s.streams[k] && t.streams[k] != task
    {
    }
    assert forall i | i in t.streams.Values :: i in s.streams.Values && i != task;
    NewEventKeepsOnce(s, t, CameraJoined(task, s.cameras[task].end.value), handle);
  }

  lemma DrainKeepsOnce(s: State, f: nat, handle: Handle)
    requires FirmwareOkay(s) && JoinedOnce(s, handle) && TeardownStep(s, DrainJoins(f)).Some?
    ensures JoinedOnce(TeardownStep(s, DrainJoins(f)).value, handle)
  {
    var t := TeardownStep(s, DrainJoins(f)).value;
    NewEventKeepsOnce(s, t, FirmwareJoined(f, s.firmware[f].end.value), handle);
  }

  lemma AwaitKeepsOnce(s: State, handle: Handle)
    requires !s.workerJoined && JoinedOnce(s, handle) && TeardownStep(s, WorkerAwaited).Some?
    ensures JoinedOnce(TeardownStep(s, WorkerAwaited).value, handle)
  {
    NewEventKeepsOnce(s, TeardownStep(s, WorkerAwaited).value, WorkerJoined(s.worker.end), handle);
  }

  lemma TeardownKeepsOnce(s: State, a: Action, handle: Handle)
    requires TableOk(s) && FirmwareOkay(s) && (s.main.JoiningWorker? ==> !s.workerJoined)
    requires JoinedOnce(s, handle) && TeardownStep(s, a).Some?
    ensures JoinedOnce(TeardownStep(s, a).value, handle)
  {
    match a
    case DrainJoins(f) => DrainKeepsOnce(s, f, handle);
    case WorkerAwaited => AwaitKeepsOnce(s, handle);
    case CameraAwaited => CameraJoinKeepsOnce(s, handle);
    case _ =>
  }

  lemma StepKeepsOnce(s: State, a: Action, handle: Handle)
    requires Inv(s) && JoinedOnce(s, handle) && Step(s, a).Some?
    ensures JoinedOnce(Step(s, a).value, handle)
  {
    if a.CameraEnds? || a.FirmwareEnds? {
      SameHistoryKeepsOnce(s, Step(s, a).value, handle);
    } else if IsWorkerAction(a) {
      WorkerEntries(s, a);
      EntriesGiveNothingBack(s, Step(s, a).value, handle);
      WorkerKeepsOutcome(s, a);
      SameHistoryKeepsOnce(s, Step(s, a).value, handle);
    } else if IsTeardownAction(a) {
      TeardownKeepsOnce(s, a, handle);
    } else {
      LoopIsUnjoined(s, a);
      LoopKeepsOnce(s, a, handle);
    }
  }

  lemma LoopIsUnjoined(s: State, a: Action)
    requires PhaseOk(s) && LoopStep(s, a).Some?
    ensures !s.workerJoined
  {
  }

  lemma {:induction false} RunKeepsOnce(actions: seq<Action>, handle: Handle)
    requires Run(actions).Some?
    ensures JoinedOnce(Run(actions).value, handle)
  {
    if actions != [] {
      RunFront(actions);
      var before := actions[..|actions| - 1];
      RunKeepsOnce(before, handle);
      RunKeeps(before);
      StepKeepsOnce(Run(before).value, actions[|actions| - 1], handle);
    }
  }

  /**
   No handle is ever awaited again after its join. On return the worker and every firmware
   task have been joined exactly once, and no camera task more than once.
  */
  lemma HandlesAreJoinedOnce(actions: seq<Action>, handle: Handle)
    requires Run(actions).Some?
    ensures var s := Run(actions).value;
            && Joins(s.history, handle) <= 1
            && (s.main.Done? && (handle.WorkerHandle? || (handle.FirmwareHandle? && handle.f < |s.firmware|)) ==>
                  Joins(s.history, handle) == 1)
  {
    RunKeepsOnce(actions, handle);
    DoneIsJoined(actions);
  }

  lemma DoneIsJoined(actions: seq<Action>)
    requires Run(actions).Some?
    ensures Run(actions).value.main.Done? ==> Run(actions).value.workerJoined && Run(actions).value.joinSet == {}
  {
    RunKeeps(actions);
  }
}
