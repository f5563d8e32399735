/**
 The camera task table as the mutable map it is: the locked sections of
 crates/pandar-agent/src/camera_control.rs and the whole of `teardown_camera_tasks` of
 crates/pandar-agent/src/command_stream.rs, proved against the step system.
*/
module CameraTable {
  import opened Basics
  import opened AgentStream
  import opened AgentStreamTheorems

  /** The same tasks, of which some more may have ended. */
  ghost predicate Evolves(before: seq<CameraTask>, after: seq<CameraTask>) {
    && |before| == |after|
    && forall t: nat | t < |before| ::
         && after[t].stream == before[t].stream
         && (before[t].end.Some? ==> after[t].end == before[t].end)
  }

  lemma EvolvesTransitive(a: seq<CameraTask>, b: seq<CameraTask>, c: seq<CameraTask>)
    requires Evolves(a, b) && Evolves(b, c)
    ensures Evolves(a, c)
  {
  }

  /** Every entry of `before` that is gone from `now` was joined with its task's own result. */
  ghost predicate GoneWereJoined(
    before: map<StreamId, nat>, now: map<StreamId, nat>, cameras: seq<CameraTask>, joined: seq<Event>)
  {
    forall k | k in before && k !in now ::
      && before[k] < |cameras| && cameras[before[k]].end.Some?
      && CameraJoined(before[k], cameras[before[k]].end.value) in joined
  }

  /** How far a teardown has come: what is left, what was joined, and nothing else changed. */
  ghost predicate Progress(
    before: map<StreamId, nat>, now: map<StreamId, nat>,
    tasks: seq<CameraTask>, cameras: seq<CameraTask>, joined: seq<Event>)
  {
    && (forall k | k in now :: k in before && now[k] == before[k])
    && |joined| + |now| == |before|
    && Evolves(tasks, cameras)
    && GoneWereJoined(before, now, cameras, joined)
  }

  lemma OneMoreGone(
    before: map<StreamId, nat>, now: map<StreamId, nat>,
    tasks: seq<CameraTask>, cameras: seq<CameraTask>, joined: seq<Event>,
    stream: StreamId, later: seq<CameraTask>, end: CameraEnd)
    requires Progress(before, now, tasks, cameras, joined) && Evolves(cameras, later)
    requires stream in now && now[stream] < |later| && later[now[stream]].end == Some(end)
    requires |now - {stream}| == |now| - 1
    ensures Progress(before, now - {stream}, tasks, later, joined + [CameraJoined(now[stream], end)])
  {
    EvolvesTransitive(tasks, cameras, later);
  }

  /** The outcome after some joins: the error it already had, or the first among them. */
  function FirstOf(outcome: Outcome, joined: seq<Event>): Outcome {
    if outcome.Failed? then outcome else OutcomeOf(joined)
  }

  lemma FirstOfAppend(outcome: Outcome, joined: seq<Event>, event: Event)
    ensures Retain(FirstOf(outcome, joined), FailureOf(event)) == FirstOf(outcome, joined + [event])
  {
    FirstFailureOfAppend(joined, event);
  }

  lemma EmptyTableMeansAllEnded(cameras: seq<CameraTask>)
    requires Tabled(map[], cameras)
    ensures forall t: nat | t < |cameras| :: cameras[t].end.Some?
  {
  }

  class Table {
    var streams: map<StreamId, nat>
    var cameras: seq<CameraTask>

    constructor ()
      ensures streams == map[] && cameras == []
    {
      streams, cameras := map[], [];
    }

    ghost predicate Valid()
      reads this
    {
      Tabled(streams, cameras) && Succession(cameras) && |streams| <= CAMERA_LIMIT
    }

    /** The step-system state that has this table. */
    ghost function In(s: State): State
      reads this
    {
      s.(streams := streams, cameras := cameras)
    }

    /** `streams.retain(|_, task| !task.is_finished())`, entry by entry. */
    method RetainUnfinished(ghost s: State)
      requires Valid() && s == In(s)
      modifies `streams
      ensures Valid() && streams == RetainRunning(s)
    {
      var rest := streams.Keys;
      while rest != {}
        invariant rest <= old(streams).Keys
        invariant forall k :: k in streams <==> k in old(streams) && (k in rest || Running(s, old(streams)[k]))
        invariant forall k | k in streams :: streams[k] == old(streams)[k]
        decreases rest
      {
        var k :| k in rest;
        rest := rest - {k};
        if cameras[streams[k]].end.Some? {
          streams := streams - {k};
        }
      }
      assert streams == RetainRunning(s);
      FinishedRemoved(s);
    }

    /** `handle_control_camera_command` from taking the lock to its first await. */
    method Handle(ghost s: State, command: CameraCommand) returns (next: Worker)
      requires Valid() && s == In(s)
      modifies this
      ensures Valid() && In(s).(worker := next) == LockedSection(s, command)
    {
      match command
      case Open(stream) =>
        RetainUnfinished(s);
        if stream !in streams && |streams| >= CAMERA_LIMIT {
          next := Reporting;
        } else if stream in streams {
          Abort(stream);
          next := Joining(stream, true);
        } else {
          next := Resolving(stream);
        }
      case Close(stream) =>
        if stream in streams {
          Abort(stream);
          next := Joining(stream, false);
        } else {
          next := Receiving;
        }
      case NoCommand =>
        next := Receiving;
    }

    /** `task.abort()`: the entry stays, so that an abort of the caller cannot lose it. */
    method Abort(stream: StreamId)
      requires Valid() && stream in streams
      modifies `cameras
      ensures Valid() && cameras == old(cameras)[streams[stream] := old(cameras)[streams[stream]].(aborting := true)]
    {
      var t := streams[stream];
      AbortKept(streams, cameras, t);
      cameras := cameras[t := cameras[t].(aborting := true)];
    }

    /** The rest of `stop_camera_task` once the join has completed. */
    method FinishStop(ghost s: State, stream: StreamId, reopen: bool) returns (next: Worker)
      requires Valid() && s == In(s) && CameraReady(s, stream)
      modifies `streams
      ensures Valid()
      ensures In(s).(worker := next) == AfterJoin(s, stream, reopen, cameras[s.streams[stream]].end.value)
    {
      var end := cameras[streams[stream]].end.value;
      EntryRemoved(streams, cameras, stream);
      streams := streams - {stream};
      next := if end.CameraPanicked? then Exited(WorkerFailed(end.cause))
              else if reopen then Resolving(stream) else Receiving;
    }

    /** The spawn and insert that follow the endpoint lookup. */
    method Spawn(ghost s: State, stream: StreamId)
      requires Valid() && s == In(s) && stream !in streams && |streams| < CAMERA_LIMIT
      modifies this
      ensures Valid() && In(s).(worker := Receiving) == SpawnCamera(s, stream)
    {
      EntryAdded(streams, cameras, stream);
      SuccessorAdded(streams, cameras, stream);
      streams, cameras := streams[stream := |cameras|], cameras + [CameraTask(stream, false, None)];
    }

    /** Awaiting a join: task `t` has ended afterwards, and any other task may have. */
    method AwaitJoin(t: nat) returns (end: CameraEnd)
      requires Valid() && t < |cameras|
      modifies `cameras
      ensures Valid() && Evolves(old(cameras), cameras) && cameras[t].end == Some(end)
    {
      if cameras[t].end.None? {
        end := *;
        cameras := cameras[t := cameras[t].(end := Some(end))];
      } else {
        end := cameras[t].end.value;
      }
    }

    /** One turn of the teardown loop: abort, await, and only then forget the entry. */
    method JoinOne(stream: StreamId) returns (end: CameraEnd)
      requires Valid() && stream in streams
      modifies this
      ensures Valid() && streams == old(streams) - {stream} && |streams| == |old(streams)| - 1
      ensures Evolves(old(cameras), cameras) && old(streams)[stream] < |cameras|
      ensures cameras[old(streams)[stream]].end == Some(end)
    {
      var t := streams[stream];
      Abort(stream);
      end := AwaitJoin(t);
      EntryRemoved(streams, cameras, stream);
      streams := streams - {stream};
    }

    /**
     `teardown_camera_tasks`: empties the table, joins every entry exactly once, leaves no
     task running, and keeps the first error.
    */
    method Teardown(outcome: Outcome) returns (result: Outcome, joined: seq<Event>)
      requires Valid()
      modifies this
      ensures Valid() && streams == map[]
      ensures Evolves(old(cameras), cameras)
      ensures forall t: nat | t < |cameras| :: cameras[t].end.Some?
      ensures |joined| == |old(streams)| && GoneWereJoined(old(streams), map[], cameras, joined)
      ensures result == FirstOf(outcome, joined)
    {
      result, joined := outcome, [];
      while |streams| > 0
        invariant Valid()
        invariant Progress(old(streams), streams, old(cameras), cameras, joined)
        invariant result == FirstOf(outcome, joined)
        decreases |streams|
      {
        assert streams.Keys != {};
        var stream :| stream in streams.Keys;
        var t := streams[stream];
        ghost var before, left := cameras, streams;
        var end := JoinOne(stream);
        OneMoreGone(old(streams), left, old(cameras), before, joined, stream, cameras, end);
        FirstOfAppend(outcome, joined, CameraJoined(t, end));
        joined := joined + [CameraJoined(t, end)];
        result := Retain(result, FailureOf(CameraJoined(t, end)));
      }
      assert streams == map[];
      EmptyTableMeansAllEnded(cameras);
    }
  }
}
