/**
 The agent's command stream (crates/pandar-agent/src/command_stream.rs) and its camera
 task table (crates/pandar-agent/src/camera_control.rs) as a step system.

 Every `.await` is a step boundary. The worker can be cancelled or can panic at each of
 them, tasks end whenever they like, and the main loop's `select!` picks any ready arm.
*/
module AgentStream {
  import opened Basics

  const CAMERA_LIMIT := 4
  const FIRMWARE_LIMIT := 4
  const QUEUE_CAPACITY := 32

  type StreamId = string
  type Cause = string

  // ----- Tasks -----

  datatype CameraEnd = CameraReturned | CameraPanicked(cause: Cause) | CameraCancelled

  datatype CameraTask = CameraTask(stream: StreamId, aborting: bool, end: Option<CameraEnd>)

  datatype FirmwareEnd =
    | FirmwareOk | FirmwareFailed(cause: Cause) | FirmwarePanicked(cause: Cause) | FirmwareCancelled

  datatype FirmwareTask = FirmwareTask(aborting: bool, end: Option<FirmwareEnd>)

  datatype WorkerEnd = WorkerReturned | WorkerFailed(cause: Cause) | WorkerPanicked(cause: Cause) | WorkerCancelled

  datatype CameraCommand = Open(stream: StreamId) | Close(stream: StreamId) | NoCommand

  datatype Command = Camera(camera: CameraCommand) | Other

  /** Where the normal worker awaits. It holds the task table's lock in the middle three. */
  datatype Worker =
    | Receiving
    | Locking(camera: CameraCommand)
    | Reporting
    | Joining(stream: StreamId, reopen: bool)
    | Resolving(stream: StreamId)
    | Handling
    | Exited(end: WorkerEnd)

  /** Where `run_command_stream_until_cancelled` awaits. */
  datatype Main =
    | Selecting
    | JoiningFull
    | Sending(command: Command)
    | DrainingFirmware
    | JoiningWorker
    | LockingCameras
    | JoiningCamera(stream: StreamId)
    | Done

  predicate InLoop(m: Main) {
    m.Selecting? || m.JoiningFull? || m.Sending?
  }

  // ----- Results -----

  datatype Error =
    | StreamRead(cause: Cause)
    | WorkerEndedOnSend
    | WorkerEndedUnexpectedly
    | WorkerRun(cause: Cause)
    | WorkerJoin(cause: Cause)
    | FirmwareRun(cause: Cause)
    | FirmwareJoin(cause: Cause)
    | CameraJoin(cause: Cause)

  datatype Outcome = ConnectedThenEnded | Failed(error: Error)

  /** What the main task observes, in the order it observes it. */
  datatype Event =
    | StreamEnded
    | CancellationFired
    | StreamFailed(cause: Cause)
    | SendRefused
    | WorkerStopped(worker: WorkerEnd)
    | FirmwareJoined(task: nat, firmware: FirmwareEnd)
    | WorkerJoined(worker: WorkerEnd)
    | CameraJoined(task: nat, camera: CameraEnd)

  /** The error an observation stands for: a cancelled join is none. */
  function FailureOf(event: Event): Option<Error> {
    match event
    case StreamEnded => None
    case CancellationFired => None
    case StreamFailed(cause) => Some(StreamRead(cause))
    case SendRefused => Some(WorkerEndedOnSend)
    case WorkerStopped(end) =>
      (match end
       case WorkerReturned => Some(WorkerEndedUnexpectedly)
       case WorkerFailed(cause) => Some(WorkerRun(cause))
       case WorkerPanicked(cause) => Some(WorkerJoin(cause))
       case WorkerCancelled => Some(WorkerJoin("cancelled")))
    case FirmwareJoined(_, end) =>
      (match end
       case FirmwareOk => None
       case FirmwareFailed(cause) => Some(FirmwareRun(cause))
       case FirmwarePanicked(cause) => Some(FirmwareJoin(cause))
       case FirmwareCancelled => None)
    case WorkerJoined(end) =>
      (match end
       case WorkerReturned => None
       case WorkerFailed(cause) => Some(WorkerRun(cause))
       case WorkerPanicked(cause) => Some(WorkerJoin(cause))
       case WorkerCancelled => None)
    case CameraJoined(_, end) =>
      (match end
       case CameraReturned => None
       case CameraPanicked(cause) => Some(CameraJoin(cause))
       case CameraCancelled => None)
  }

  /** `retain_first_error`, with nothing to retain when there is no failure. */
  function Retain(outcome: Outcome, failure: Option<Error>): Outcome {
    if failure.None? || outcome.Failed? then outcome else Failed(failure.value)
  }

  // ----- States and steps -----

  /**
   `cameras` and `firmware` hold every task ever spawned, in spawn order; `streams` is the
   shared table and `joinSet` the set of firmware tasks not yet joined.
  */
  datatype State = State(
    main: Main,
    worker: Worker,
    workerAborting: bool,
    workerJoined: bool,
    queue: seq<Command>,
    streams: map<StreamId, nat>,
    cameras: seq<CameraTask>,
    firmware: seq<FirmwareTask>,
    joinSet: set<nat>,
    outcome: Outcome,
    history: seq<Event>)

  function Initial(): State {
    State(Selecting, Receiving, false, false, [], map[], [], [], {}, ConnectedThenEnded, [])
  }

  datatype Action =
    // tasks ending on their own or after an abort
    | CameraEnds(task: nat, cameraEnd: CameraEnd)
    | FirmwareEnds(task: nat, firmwareEnd: FirmwareEnd)
    // the normal worker
    | WorkerReceives
    | WorkerLocks
    | WorkerReports
    | WorkerJoinsCamera
    | WorkerResolves
    | WorkerHandles(failure: Option<Cause>)
    | WorkerPanics(cause: Cause)
    | WorkerIsCancelled
    // the select loop
    | FirmwareCommand
    | FullSetJoins(task: nat)
    | NormalCommand(command: Command)
    | SendCompletes
    | SendFails
    | StreamFails(cause: Cause)
    | StreamEnds
    | CancellationFires
    | WorkerSeenStopped
    | FirmwareSeen(task: nat)
    // teardown
    | DrainJoins(task: nat)
    | DrainEmpty
    | WorkerAwaited
    | CamerasLocked(choice: Option<StreamId>)
    | CameraAwaited

  predicate Running(s: State, t: nat) {
    t < |s.cameras| && s.cameras[t].end.None?
  }

  predicate WorkerHoldsLock(s: State) {
    s.worker.Reporting? || s.worker.Joining? || s.worker.Resolving?
  }

  /** `streams.retain(|_, task| !task.is_finished())`. */
  function RetainRunning(s: State): map<StreamId, nat> {
    map k | k in s.streams && Running(s, s.streams[k]) :: s.streams[k]
  }

  function AbortCamera(s: State, t: nat): State {
    if t < |s.cameras| then s.(cameras := s.cameras[t := s.cameras[t].(aborting := true)]) else s
  }

  /** `stop_camera_task` up to its await. */
  function StopCamera(s: State, stream: StreamId, reopen: bool): State
    requires stream in s.streams
  {
    AbortCamera(s, s.streams[stream]).(worker := Joining(stream, reopen))
  }

  /** `handle_control_camera_command` from the lock to its first await. */
  function LockedSection(s: State, command: CameraCommand): State {
    match command
    case Open(stream) =>
      var kept := s.(streams := RetainRunning(s));
      if stream !in kept.streams && |kept.streams| >= CAMERA_LIMIT then kept.(worker := Reporting)
      else if stream in kept.streams then StopCamera(kept, stream, true)
      else kept.(worker := Resolving(stream))
    case Close(stream) =>
      if stream in s.streams then StopCamera(s, stream, false) else s.(worker := Receiving)
    case NoCommand => s.(worker := Receiving)
  }

  /** `stop_camera_task` after its await: the entry goes only once the task has ended. */
  function AfterJoin(s: State, stream: StreamId, reopen: bool, end: CameraEnd): State {
    var removed := s.(streams := s.streams - {stream});
    if end.CameraPanicked? then removed.(worker := Exited(WorkerFailed(end.cause)))
    else if reopen then removed.(worker := Resolving(stream))
    else removed.(worker := Receiving)
  }

  /** Both arms of the endpoint lookup spawn a task and insert it with no await in between. */
  function SpawnCamera(s: State, stream: StreamId): State {
    s.(streams := s.streams[stream := |s.cameras|],
       cameras := s.cameras + [CameraTask(stream, false, None)],
       worker := Receiving)
  }

  function SpawnFirmware(s: State): State {
    s.(firmware := s.firmware + [FirmwareTask(false, None)], joinSet := s.joinSet + {|s.firmware|}, main := Selecting)
  }

  function Record(s: State, event: Event): State {
    s.(history := s.history + [event], outcome := Retain(s.outcome, FailureOf(event)))
  }

  /** Leaving the loop: `abort_all`, and abort of the worker unless it was already joined. */
  function Break(s: State, event: Event): State {
    Record(s, event).(
      main := DrainingFirmware,
      firmware := seq(|s.firmware|, i requires 0 <= i < |s.firmware| =>
        if i in s.joinSet then s.firmware[i].(aborting := true) else s.firmware[i]),
      workerAborting := s.workerAborting || !s.workerJoined)
  }

  predicate FirmwareReady(s: State, f: nat) {
    f in s.joinSet && f < |s.firmware| && s.firmware[f].end.Some?
  }

  function JoinFirmware(s: State, f: nat): State
    requires FirmwareReady(s, f)
  {
    s.(joinSet := s.joinSet - {f})
  }

  /** The join of a firmware task inside the loop, then `after` if it did not fail. */
  function LoopJoin(s: State, f: nat, spawn: bool): State
    requires FirmwareReady(s, f)
  {
    var event := FirmwareJoined(f, s.firmware[f].end.value);
    var joined := JoinFirmware(s, f);
    if FailureOf(event).Some? then Break(joined, event)
    else if spawn then SpawnFirmware(Record(joined, event))
    else Record(joined, event)
  }

  predicate CameraReady(s: State, stream: StreamId) {
    stream in s.streams && s.streams[stream] < |s.cameras| && s.cameras[s.streams[stream]].end.Some?
  }

  function When(enabled: bool, next: State): Option<State> {
    if enabled then Some(next) else None
  }

  function TaskStep(s: State, a: Action): Option<State>
    requires a.CameraEnds? || a.FirmwareEnds?
  {
    match a
    case CameraEnds(t, end) =>
      if Running(s, t) && (end.CameraCancelled? ==> s.cameras[t].aborting) then
        Some(s.(cameras := s.cameras[t := s.cameras[t].(end := Some(end))]))
      else None
    case FirmwareEnds(f, end) =>
      if f < |s.firmware| && s.firmware[f].end.None? && (end.FirmwareCancelled? ==> s.firmware[f].aborting) then
        Some(s.(firmware := s.firmware[f := s.firmware[f].(end := Some(end))]))
      else None
  }

  function WorkerStep(s: State, a: Action): Option<State> {
    match a
    case WorkerReceives =>
      if s.worker.Receiving? && s.queue != [] then
        Some(s.(queue := s.queue[1..],
                worker := if s.queue[0].Camera? then Locking(s.queue[0].camera) else Handling))
      else None
    case WorkerLocks =>
      if s.worker.Locking? && !s.main.JoiningCamera? then Some(LockedSection(s, s.worker.camera)) else None
    case WorkerReports => When(s.worker.Reporting?, s.(worker := Receiving))
    case WorkerJoinsCamera =>
      if s.worker.Joining? && CameraReady(s, s.worker.stream) then
        Some(AfterJoin(s, s.worker.stream, s.worker.reopen, s.cameras[s.streams[s.worker.stream]].end.value))
      else None
    case WorkerResolves => if s.worker.Resolving? then Some(SpawnCamera(s, s.worker.stream)) else None
    case WorkerHandles(failure) =>
      When(s.worker.Handling?,
           s.(worker := if failure.Some? then Exited(WorkerFailed(failure.value)) else Receiving))
    case WorkerPanics(cause) => When(!s.worker.Exited?, s.(worker := Exited(WorkerPanicked(cause))))
    case WorkerIsCancelled =>
      When(!s.worker.Exited? && s.workerAborting, s.(worker := Exited(WorkerCancelled)))
    case _ => None
  }

  function LoopStep(s: State, a: Action): Option<State> {
    match a
    case FirmwareCommand =>
      When(s.main.Selecting?, if |s.joinSet| >= FIRMWARE_LIMIT then s.(main := JoiningFull) else SpawnFirmware(s))
    case FullSetJoins(f) =>
      if s.main.JoiningFull? && FirmwareReady(s, f) then Some(LoopJoin(s, f, true)) else None
    case NormalCommand(command) => When(s.main.Selecting?, s.(main := Sending(command)))
    case SendCompletes =>
      if s.main.Sending? && !s.worker.Exited? && |s.queue| < QUEUE_CAPACITY then
        Some(s.(queue := s.queue + [s.main.command], main := Selecting))
      else None
    case SendFails => When(s.main.Sending? && s.worker.Exited?, Break(s, SendRefused))
    case StreamFails(cause) => When(s.main.Selecting?, Break(s, StreamFailed(cause)))
    case StreamEnds => When(s.main.Selecting?, Break(s, StreamEnded))
    case CancellationFires => When(s.main.Selecting?, Break(s, CancellationFired))
    case WorkerSeenStopped =>
      if s.main.Selecting? && s.worker.Exited? then
        Some(Break(s.(workerJoined := true), WorkerStopped(s.worker.end)))
      else None
    case FirmwareSeen(f) =>
      if s.main.Selecting? && FirmwareReady(s, f) then Some(LoopJoin(s, f, false)) else None
    case _ => None
  }

  function TeardownStep(s: State, a: Action): Option<State> {
    match a
    case DrainJoins(f) =>
      if s.main.DrainingFirmware? && FirmwareReady(s, f) then
        Some(Record(JoinFirmware(s, f), FirmwareJoined(f, s.firmware[f].end.value)))
      else None
    case DrainEmpty =>
      When(s.main.DrainingFirmware? && s.joinSet == {},
           s.(main := if s.workerJoined then LockingCameras else JoiningWorker))
    case WorkerAwaited =>
      if s.main.JoiningWorker? && s.worker.Exited? then
        Some(Record(s, WorkerJoined(s.worker.end)).(main := LockingCameras, workerJoined := true))
      else None
    case CamerasLocked(choice) =>
      if !s.main.LockingCameras? || WorkerHoldsLock(s) then None
      else if choice.None? then When(s.streams == map[], s.(main := Done))
      else if choice.value in s.streams then
        Some(AbortCamera(s, s.streams[choice.value]).(main := JoiningCamera(choice.value)))
      else None
    case CameraAwaited =>
      if s.main.JoiningCamera? && CameraReady(s, s.main.stream) then
        var t := s.streams[s.main.stream];
        Some(Record(s.(streams := s.streams - {s.main.stream}), CameraJoined(t, s.cameras[t].end.value))
             .(main := LockingCameras))
      else None
    case _ => None
  }

  predicate IsWorkerAction(a: Action) {
    || a.WorkerReceives? || a.WorkerLocks? || a.WorkerReports? || a.WorkerJoinsCamera? || a.WorkerResolves?
    || a.WorkerHandles? || a.WorkerPanics? || a.WorkerIsCancelled?
  }

  predicate IsTeardownAction(a: Action) {
    a.DrainJoins? || a.DrainEmpty? || a.WorkerAwaited? || a.CamerasLocked? || a.CameraAwaited?
  }

  /** One step of the whole system, or nothing when the action is not enabled. */
  function Step(s: State, a: Action): Option<State> {
    if a.CameraEnds? || a.FirmwareEnds? then TaskStep(s, a)
    else if IsWorkerAction(a) then WorkerStep(s, a)
    else if IsTeardownAction(a) then TeardownStep(s, a)
    else LoopStep(s, a)
  }

  /** The state after a run, if every action of it was enabled in turn. */
  function Run(actions: seq<Action>): Option<State> {
    if actions == [] then Some(Initial())
    else
      match Run(actions[..|actions| - 1])
      case None => None
      case Some(s) => Step(s, actions[|actions| - 1])
  }
}
