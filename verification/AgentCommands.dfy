/**
 What becomes of the commands of crates/pandar-agent/src/command_stream.rs: they reach the
 worker in order, each firmware command gets its task, and camera commands start and stop
 the tasks they name (crates/pandar-agent/src/camera_control.rs).
*/
module AgentCommands {
  import opened Basics
  import opened AgentStream
  import opened AgentStreamTheorems
  import opened AgentStreamResults

  // ----- Normal commands arrive in order -----

  /** The normal command that the loop took from the stream last. */
  function LastTaken(actions: seq<Action>): Command {
    if actions == [] then Other
    else if actions[|actions| - 1].NormalCommand? then actions[|actions| - 1].command
    else LastTaken(actions[..|actions| - 1])
  }

  /** The commands sent to the worker, in order. */
  function Sent(actions: seq<Action>): seq<Command> {
    if actions == [] then []
    else Sent(actions[..|actions| - 1])
         + if actions[|actions| - 1].SendCompletes? then [LastTaken(actions[..|actions| - 1])] else []
  }

  /** The command a worker that has just received one is about to handle. */
  function Begun(worker: Worker): Command {
    if worker.Locking? then Camera(worker.camera) else Other
  }

  /** The commands the worker has begun to handle, in order. */
  function Received(actions: seq<Action>): seq<Command> {
    if actions == [] then []
    else Received(actions[..|actions| - 1])
         + if actions[|actions| - 1].WorkerReceives? && Run(actions).Some? then [Begun(Run(actions).value.worker)]
           else []
  }

  lemma StepMovesQueue(s: State, a: Action)
    requires Step(s, a).Some?
    ensures var t := Step(s, a).value;
            && (if a.WorkerReceives? then [Begun(t.worker)] else []) + t.queue ==
               s.queue + (if a.SendCompletes? && s.main.Sending? then [s.main.command] else [])
            && (a.SendCompletes? ==> s.main.Sending? && |s.queue| < 32)
            && |t.queue| <= |s.queue| + (if a.SendCompletes? then 1 else 0)
  {
    if !a.SendCompletes? && !a.WorkerReceives? {
      OthersLeaveQueue(s, a);
      assert [] + s.queue == s.queue + [];
    }
  }

  lemma OthersLeaveQueue(s: State, a: Action)
    requires Step(s, a).Some? && !a.SendCompletes? && !a.WorkerReceives?
    ensures Step(s, a).value.queue == s.queue
  {
  }

  lemma StepKeepsSending(s: State, a: Action)
    requires Step(s, a).Some? && Step(s, a).value.main.Sending?
    ensures if a.NormalCommand? then Step(s, a).value.main.command == a.command else Step(s, a).value.main == s.main
  {
  }

  lemma {:induction false} SendingIsLastTaken(actions: seq<Action>)
    requires Run(actions).Some? && Run(actions).value.main.Sending?
    ensures Run(actions).value.main.command == LastTaken(actions)
  {
    if actions != [] {
      RunFront(actions);
      var before := actions[..|actions| - 1];
      StepKeepsSending(Run(before).value, actions[|actions| - 1]);
      if !actions[|actions| - 1].NormalCommand? {
        SendingIsLastTaken(before);
      }
    }
  }

  /** In every run the worker has begun the commands sent to it in order, up to those still queued, at most 32. */
  lemma {:induction false} CommandsInOrder(actions: seq<Action>)
    requires Run(actions).Some?
    ensures Sent(actions) == Received(actions) + Run(actions).value.queue
    ensures |Run(actions).value.queue| <= 32
  {
    if actions != [] {
      RunFront(actions);
      var before, a := actions[..|actions| - 1], actions[|actions| - 1];
      CommandsInOrder(before);
      StepMovesQueue(Run(before).value, a);
      if a.SendCompletes? {
        SendingIsLastTaken(before);
      }
      QueueMoved(Sent(before), Received(before), Run(before).value.queue, Run(actions).value.queue,
                 if a.SendCompletes? then [LastTaken(before)] else [],
                 if a.WorkerReceives? then [Begun(Run(actions).value.worker)] else []);
    }
  }

  lemma QueueMoved(
    sent: seq<Command>, received: seq<Command>, queue: seq<Command>, now: seq<Command>,
    enters: seq<Command>, leaves: seq<Command>)
    requires sent == received + queue && leaves + now == queue + enters
    ensures sent + enters == received + leaves + now
  {
    assert received + (queue + enters) == received + queue + enters;
    assert received + (leaves + now) == received + leaves + now;
  }

  /** Sending waits for room among 32 commands while the worker lives, and fails exactly when it has ended. */
  lemma SendWaitsForRoom(actions: seq<Action>)
    requires Run(actions).Some? && Run(actions).value.main.Sending?
    ensures var s := Run(actions).value;
            && (Step(s, SendCompletes).Some? <==> !s.worker.Exited? && |s.queue| < 32)
            && (Step(s, SendFails).Some? <==> s.worker.Exited?)
  {
  }

  /** The arms of the select loop that a command, a cancellation or an ended worker makes ready. */
  predicate IsReady(s: State, a: Action) {
    a.FirmwareCommand? || a.NormalCommand? || a.StreamEnds? || a.CancellationFires? || a.StreamFails?
    || (a.WorkerSeenStopped? && s.worker.Exited?)
  }

  /** The select loop takes whatever the stream brings, a cancellation, and the end of the worker. */
  lemma LoopTakesAnything(s: State, a: Action)
    requires s.main.Selecting? && IsReady(s, a)
    ensures Step(s, a).Some?
  {
  }

  /** It sees the worker stopped only when it has ended. */
  lemma LoopSeesEndOnly(s: State)
    ensures Step(s, WorkerSeenStopped).Some? ==> s.worker.Exited?
  {
  }

  /** And join any firmware task that has ended, on its own or to free a place for the next. */
  lemma LoopJoinsAnyEnd(s: State, f: nat)
    requires f in s.joinSet && f < |s.firmware|
    ensures s.main.Selecting? ==> (Step(s, FirmwareSeen(f)).Some? <==> s.firmware[f].end != None)
    ensures s.main.JoiningFull? ==> (Step(s, FullSetJoins(f)).Some? <==> s.firmware[f].end != None)
    ensures s.main.DrainingFirmware? ==> (Step(s, DrainJoins(f)).Some? <==> s.firmware[f].end != None)
  {
  }

  /** The worker goes on with a queued command, with the lock unless teardown holds it, and with its own work. */
  lemma WorkerGoesOn(s: State, cause: Cause)
    ensures s.worker == Receiving ==> (Step(s, WorkerReceives).Some? <==> s.queue != [])
    ensures s.worker.Locking? ==> (Step(s, WorkerLocks).Some? <==> !s.main.JoiningCamera?)
    ensures s.worker == Reporting ==> Step(s, WorkerReports) == Some(s.(worker := Receiving))
    ensures s.worker == Handling ==> Step(s, WorkerHandles(None)) == Some(s.(worker := Receiving))
    ensures s.worker == Handling ==> Step(s, WorkerHandles(Some(cause))).Some?
    ensures !s.worker.Exited? ==> Step(s, WorkerPanics(cause)).Some?
    ensures !s.worker.Exited? ==> (Step(s, WorkerIsCancelled).Some? <==> s.workerAborting)
  {
  }

  /** A task may end at any time, as cancelled only after an abort, and only once. */
  lemma TasksEndOnce(s: State, t: nat, end: CameraEnd, f: nat, firmwareEnd: FirmwareEnd)
    ensures Step(s, CameraEnds(t, end)).Some? <==>
            t < |s.cameras| && s.cameras[t].end == None && (end == CameraCancelled ==> s.cameras[t].aborting)
    ensures Step(s, CameraEnds(t, end)).Some? ==>
              Step(s, CameraEnds(t, end)).value.cameras[t].end == Some(end)
    ensures Step(s, FirmwareEnds(f, firmwareEnd)).Some? <==>
            && f < |s.firmware| && s.firmware[f].end == None
            && (firmwareEnd == FirmwareCancelled ==> s.firmware[f].aborting)
    ensures Step(s, FirmwareEnds(f, firmwareEnd)).Some? ==>
              Step(s, FirmwareEnds(f, firmwareEnd)).value.firmware[f].end == Some(firmwareEnd)
  {
  }

  // ----- Firmware commands -----

  function FirmwareCommands(actions: seq<Action>): nat {
    if actions == [] then 0
    else FirmwareCommands(actions[..|actions| - 1]) + if actions[|actions| - 1].FirmwareCommand? then 1 else 0
  }

  lemma StepSpawnsFirmware(s: State, a: Action)
    requires Step(s, a).Some?
    ensures var t := Step(s, a).value;
            InLoop(t.main) ==>
              && InLoop(s.main)
              && |t.firmware| + (if t.main.JoiningFull? then 1 else 0) ==
                 |s.firmware| + (if s.main.JoiningFull? then 1 else 0) + (if a.FirmwareCommand? then 1 else 0)
  {
    if IsWorkerAction(a) {
      WorkerLeavesFirmware(s, a);
    } else if !IsTeardownAction(a) && !a.CameraEnds? && !a.FirmwareEnds? {
      LoopSpawnsFirmware(s, a);
    }
  }

  lemma WorkerLeavesFirmware(s: State, a: Action)
    requires WorkerStep(s, a).Some?
    ensures WorkerStep(s, a).value.firmware == s.firmware && WorkerStep(s, a).value.main == s.main
  {
  }

  lemma LoopSpawnsFirmware(s: State, a: Action)
    requires LoopStep(s, a).Some?
    ensures var t := LoopStep(s, a).value;
            InLoop(t.main) ==>
              && InLoop(s.main)
              && |t.firmware| + (if t.main.JoiningFull? then 1 else 0) ==
                 |s.firmware| + (if s.main.JoiningFull? then 1 else 0) + (if a.FirmwareCommand? then 1 else 0)
  {
  }

  /** While the loop runs every firmware command has its own task, except one that waits for a free place. */
  lemma {:induction false} FirmwareCommandsRun(actions: seq<Action>)
    requires Run(actions).Some? && InLoop(Run(actions).value.main)
    ensures FirmwareCommands(actions) ==
            |Run(actions).value.firmware| + if Run(actions).value.main.JoiningFull? then 1 else 0
  {
    if actions != [] {
      RunFront(actions);
      var before := actions[..|actions| - 1];
      StepSpawnsFirmware(Run(before).value, actions[|actions| - 1]);
      FirmwareCommandsRun(before);
    }
  }

  /** A firmware command waits exactly when four tasks have not been joined. */
  lemma FirmwareWaitsAtFour(actions: seq<Action>)
    requires Run(actions).Some? && Step(Run(actions).value, FirmwareCommand).Some?
    ensures Step(Run(actions).value, FirmwareCommand).value.main.JoiningFull? <==> |Run(actions).value.joinSet| == 4
  {
    NothingIsLost(actions);
  }

  ghost predicate NothingAborted(s: State) {
    !s.workerAborting && forall f: nat | f < |s.firmware| :: !s.firmware[f].aborting
  }

  lemma LoopAbortsNothing(s: State, a: Action)
    requires Step(s, a).Some? && InLoop(s.main) && NothingAborted(s) && InLoop(Step(s, a).value.main)
    ensures NothingAborted(Step(s, a).value)
  {
    if IsWorkerAction(a) {
      WorkerLeavesAborts(s, a);
    }
  }

  lemma WorkerLeavesAborts(s: State, a: Action)
    requires WorkerStep(s, a).Some?
    ensures WorkerStep(s, a).value.firmware == s.firmware && WorkerStep(s, a).value.workerAborting == s.workerAborting
  {
  }

  lemma InLoopBefore(s: State, a: Action)
    requires Step(s, a).Some? && InLoop(Step(s, a).value.main)
    ensures InLoop(s.main)
  {
  }

  /** While the loop runs neither the worker nor any firmware task has been told to abort. */
  lemma {:induction false} AbortsOnlyInTeardown(actions: seq<Action>)
    requires Run(actions).Some? && InLoop(Run(actions).value.main)
    ensures NothingAborted(Run(actions).value)
  {
    if actions != [] {
      RunFront(actions);
      var before := actions[..|actions| - 1];
      InLoopBefore(Run(before).value, actions[|actions| - 1]);
      AbortsOnlyInTeardown(before);
      LoopAbortsNothing(Run(before).value, actions[|actions| - 1]);
    }
  }

  // ----- Camera commands -----

  /** The streams whose task has not ended. */
  ghost function Live(s: State): set<StreamId> {
    set k | k in s.streams && s.streams[k] < |s.cameras| && s.cameras[s.streams[k]].end == None
  }

  /** Task `t` has been told to abort, and nothing else of the tasks has changed. */
  ghost predicate OnlyAborts(before: seq<CameraTask>, after: seq<CameraTask>, t: nat) {
    && |after| == |before| && t < |after| && after[t].aborting
    && (forall i: nat | i < |after| && i != t :: after[i] == before[i])
    && after[t].stream == before[t].stream && after[t].end == before[t].end
  }

  lemma TableOf(actions: seq<Action>)
    requires Run(actions).Some?
    ensures Tabled(Run(actions).value.streams, Run(actions).value.cameras)
  {
    RunKeeps(actions);
  }

  lemma RetainIsLive(s: State)
    requires Tabled(s.streams, s.cameras)
    ensures RetainRunning(s).Keys == Live(s)
    ensures forall k | k in Live(s) :: k in s.streams && k in RetainRunning(s) && RetainRunning(s)[k] == s.streams[k]
  {
    assert forall k | k in s.streams :: Running(s, s.streams[k]) <==> s.cameras[s.streams[k]].end == None;
  }

  /**
   An open drops the streams whose task has ended. If its own task is still running that is
   told to abort and awaited; otherwise it goes ahead, unless four others are running.
  */
  lemma OpenDecides(actions: seq<Action>, k: StreamId)
    requires Run(actions).Some? && Run(actions).value.worker == Locking(Open(k))
    requires Step(Run(actions).value, WorkerLocks).Some?
    ensures var s, t := Run(actions).value, Step(Run(actions).value, WorkerLocks).value;
            && t.streams.Keys == Live(s)
            && (forall j | j in t.streams :: j in s.streams && t.streams[j] == s.streams[j])
            && (k in Live(s) ==>
                  t.worker == Joining(k, true) && k in s.streams && OnlyAborts(s.cameras, t.cameras, s.streams[k]))
            && (k !in Live(s) ==>
                  t.cameras == s.cameras && t.worker == if |Live(s)| >= 4 then Reporting else Resolving(k))
  {
    TableOf(actions);
    RetainIsLive(Run(actions).value);
    LiveSize(Run(actions).value);
  }

  lemma LiveSize(s: State)
    requires Tabled(s.streams, s.cameras)
    ensures |RetainRunning(s)| == |Live(s)|
  {
    RetainIsLive(s);
    assert |RetainRunning(s)| == |RetainRunning(s).Keys|;
  }

  /** A close tells the task of its stream to abort and awaits it; without an entry it does nothing. */
  lemma CloseStopsTask(actions: seq<Action>, k: StreamId)
    requires Run(actions).Some? && Run(actions).value.worker == Locking(Close(k))
    requires Step(Run(actions).value, WorkerLocks).Some?
    ensures var s, t := Run(actions).value, Step(Run(actions).value, WorkerLocks).value;
            && t.streams == s.streams
            && (k in s.streams ==> t.worker == Joining(k, false) && OnlyAborts(s.cameras, t.cameras, s.streams[k]))
            && (k !in s.streams ==> t.worker == Receiving && t.cameras == s.cameras)
  {
    TableOf(actions);
  }

  /**
   The worker goes on exactly when the task it stopped has ended; then the entry is gone, and
   a panic ends the worker, a reopened stream is resolved and a closed one is done with.
  */
  lemma StopAwaitsEnd(actions: seq<Action>, k: StreamId, reopen: bool)
    requires Run(actions).Some? && Run(actions).value.worker == Joining(k, reopen)
    ensures var s := Run(actions).value;
            && k in s.streams && s.streams[k] < |s.cameras|
            && (Step(s, WorkerJoinsCamera).Some? <==> s.cameras[s.streams[k]].end != None)
    ensures Step(Run(actions).value, WorkerJoinsCamera).Some? ==>
              var s, t := Run(actions).value, Step(Run(actions).value, WorkerJoinsCamera).value;
              && t.streams == s.streams - {k} && t.cameras == s.cameras
              && match s.cameras[s.streams[k]].end.value
                 case CameraPanicked(cause) => t.worker == Exited(WorkerFailed(cause))
                 case _ => t.worker == if reopen then Resolving(k) else Receiving
  {
    RunKeeps(actions);
  }

  /** A resolved stream gets a new running task, entered under its id at once. */
  lemma ResolveSpawnsTask(actions: seq<Action>, k: StreamId)
    requires Run(actions).Some? && Run(actions).value.worker == Resolving(k)
    ensures Step(Run(actions).value, WorkerResolves).Some?
    ensures var s, t := Run(actions).value, Step(Run(actions).value, WorkerResolves).value;
            && |t.cameras| == |s.cameras| + 1 && t.cameras[..|s.cameras|] == s.cameras
            && t.cameras[|s.cameras|] == CameraTask(k, false, None)
            && t.streams == s.streams[k := |s.cameras|] && t.worker == Receiving
  {
  }

  // ----- The end of the worker -----

  lemma {:induction false} ExitedIsFinal(actions: seq<Action>, n: nat)
    requires Run(actions).Some? && n <= |actions| && Run(actions[..n]).Some? && Run(actions[..n]).value.worker.Exited?
    ensures Run(actions).value.worker == Run(actions[..n]).value.worker
  {
    if n == |actions| {
      assert actions[..n] == actions;
    } else {
      RunFront(actions);
      var before := actions[..|actions| - 1];
      assert before[..n] == actions[..n];
      ExitedIsFinal(before, n);
      StepKeepsEnds(Run(before).value, actions[|actions| - 1]);
    }
  }

  ghost predicate EndsWorker(a: Action, end: WorkerEnd) {
    || (exists cause :: a == WorkerHandles(Some(cause)) && end == WorkerFailed(cause))
    || (exists cause :: a == WorkerPanics(cause) && end == WorkerPanicked(cause))
    || (a == WorkerIsCancelled && end == WorkerCancelled)
  }

  /** A failing command, a panic or a cancellation ends the worker that way, for good. */
  lemma WorkerEndsThatWay(actions: seq<Action>, p: nat, end: WorkerEnd)
    requires Run(actions).Some? && p < |actions| && EndsWorker(actions[p], end)
    ensures Run(actions).value.worker == Exited(end)
  {
    RunPrefix(actions, p);
    EndedBy(Run(actions[..p]).value, actions[p], end);
    ExitedIsFinal(actions, p + 1);
  }

  lemma EndedBy(s: State, a: Action, end: WorkerEnd)
    requires Step(s, a).Some? && EndsWorker(a, end)
    ensures Step(s, a).value.worker == Exited(end)
  {
  }
}
