/**
 What each operation of crates/pandar-hub/src/camera_sessions.rs does to a stream, then and
 in everything that follows.
*/
module CameraSessionEffects {
  import opened Basics
  import opened CameraSessions
  import opened CameraSessionTheorems

  lemma RunLastStep(actions: seq<Action>)
    requires actions != [] && Run(actions).Some?
    ensures var before := Run(actions[..|actions| - 1]);
            before.Some? && Step(before.value, actions[|actions| - 1]) == Run(actions)
  {
  }

  lemma KeysAreOk(actions: seq<Action>)
    requires Run(actions).Some?
    ensures KeysOk(Run(actions).value)
  {
    RunKeeps(actions);
  }

  // ----- Which streams an operation reaches -----

  /** The streams a step may touch: its own, the printer's for an open, the agent's for a session end. */
  predicate Concerns(s: State, a: Action, id: StreamId) {
    match a
    case OpenLocked(handle, k) =>
      id == k || (id in s.streams && s.streams[id].agent == handle.agent && s.streams[id].serial == handle.serial)
    case CloseAgentLocked(agent) => id in s.streams && s.streams[id].agent == agent
    case _ => a.id == id
  }

  lemma OpenReachesPrinter(s: State, handle: Handle, k: StreamId, id: StreamId)
    requires KeysOk(s) && OpenStep(s, handle, k).Some? && id in s.channels && !Concerns(s, OpenLocked(handle, k), id)
    ensures SameStream(s, OpenStep(s, handle, k).value, id)
  {
  }

  lemma CloseReachesOwn(s: State, a: Action, id: StreamId)
    requires KeysOk(s) && (a.CloseLocked? || a.CloseAgentLocked?) && Step(s, a).Some?
    requires id in s.channels && !Concerns(s, a, id)
    ensures SameStream(s, Step(s, a).value, id)
  {
  }

  lemma OthersReachOwn(s: State, a: Action, id: StreamId)
    requires KeysOk(s) && !a.OpenLocked? && !a.CloseLocked? && !a.CloseAgentLocked? && Step(s, a).Some?
    requires id in s.channels && a.id != id
    ensures SameStream(s, Step(s, a).value, id)
  {
    if a.PushLookup? || a.PushSent? || a.PushEvicted? {
      PushReachesOwn(s, a, id);
    }
  }

  lemma PushReachesOwn(s: State, a: Action, id: StreamId)
    requires KeysOk(s) && (a.PushLookup? || a.PushSent? || a.PushEvicted?) && Step(s, a).Some?
    requires id in s.channels && a.id != id
    ensures SameStream(s, Step(s, a).value, id)
  {
    match a
    case PushLookup(agent, k, chunk) =>
      assert Step(s, a) == LookupStep(s, agent, k, chunk);
    case PushSent(k) =>
      assert Step(s, a) == SendStep(s, k);
    case PushEvicted(k) =>
      assert Step(s, a) == EvictStep(s, k);
  }

  /** In every reachable state a step leaves every stream it does not concern exactly as it was. */
  lemma OnlyConcernedChange(actions: seq<Action>, a: Action, id: StreamId)
    requires Run(actions).Some? && Step(Run(actions).value, a).Some?
    requires id in Run(actions).value.channels && !Concerns(Run(actions).value, a, id)
    ensures SameStream(Run(actions).value, Step(Run(actions).value, a).value, id)
  {
    KeysAreOk(actions);
    var s := Run(actions).value;
    if a.OpenLocked? {
      OpenReachesPrinter(s, a.handle, a.id, id);
    } else if a.CloseLocked? || a.CloseAgentLocked? {
      CloseReachesOwn(s, a, id);
    } else {
      OthersReachOwn(s, a, id);
    }
  }

  /** When an open can go on: with its offer, and with its undo once that was refused. */
  lemma OpensGoOn(actions: seq<Action>, id: StreamId, sent: bool)
    requires Run(actions).Some?
    ensures var s := Run(actions).value;
            && (Step(s, OpenOffered(id, sent)).Some? <==> id in s.opening && s.opening[id] == Offering)
            && (Step(s, OpenUndone(id)).Some? <==> id in s.opening && s.opening[id] == Refused)
  {
    KeysAreOk(actions);
  }

  /** When a push can go on; a push to a stream that is not one's own always ends at its lookup. */
  lemma PushesGoOn(actions: seq<Action>, agent: AgentId, id: StreamId, chunk: Chunk)
    requires Run(actions).Some?
    ensures var s := Run(actions).value;
            && (Step(s, PushSent(id)).Some? <==> id in s.producers && s.producers[id].Holding?)
            && (Step(s, PushEvicted(id)).Some? <==> id in s.producers && s.producers[id].Evicting?)
            && (Step(s, PushLookup(agent, id, chunk)).Some? <==>
                  (id in s.channels && s.channels[id].agent == agent ==>
                     id in s.producers && s.producers[id].Idle?))
  {
    KeysAreOk(actions);
  }

  /** When the viewer can receive or go, and what follows its going can run. */
  lemma ViewersGoOn(s: State, id: StreamId)
    ensures Step(s, Received(id)).Some? <==>
            id in s.channels && !s.channels[id].closed && s.channels[id].queue != []
    ensures Step(s, Dropped(id)).Some? <==> id in s.channels && id !in s.opening
    ensures Step(s, AbortLocked(id)).Some? <==> id in s.channels && s.channels[id].closed
  {
  }

  // ----- Opening -----

  /** A fresh id is always accepted and is registered for its printer, with an empty channel. */
  lemma OpenRegisters(actions: seq<Action>, handle: Handle, id: StreamId)
    requires Run(actions).Some? && id !in Run(actions).value.channels
    ensures Step(Run(actions).value, OpenLocked(handle, id)).Some?
    ensures var t := Step(Run(actions).value, OpenLocked(handle, id)).value;
            && id in t.streams && t.streams[id] == handle
            && id in t.channels && t.channels[id].Items() == [] && !t.channels[id].closed
            && id in t.opening && t.opening[id] == Offering && id !in t.failed
  {
    KeysAreOk(actions);
  }

  ghost predicate UndoOwedOrDone(s: State, id: StreamId) {
    && id in s.channels
    && ((id in s.opening && s.opening[id] == Refused) || (id in s.failed && id !in s.streams))
  }

  lemma RefusalStays(s: State, a: Action, id: StreamId)
    requires UndoOwedOrDone(s, id) && Step(s, a).Some?
    ensures UndoOwedOrDone(Step(s, a).value, id)
  {
  }

  /**
   An open whose command could not be sent: from then on its undo is owed, and can be taken,
   or it has returned its error and is unregistered.
  */
  lemma {:induction false} RefusedOpenIsUndone(actions: seq<Action>, q: nat, id: StreamId)
    requires Run(actions).Some? && q < |actions| && actions[q] == OpenOffered(id, false)
    ensures var s := Run(actions).value;
            || (id in s.opening && s.opening[id] == Refused && Step(s, OpenUndone(id)).Some?)
            || (id in s.failed && id !in s.streams)
    ensures UndoOwedOrDone(Run(actions).value, id)
  {
    RunLastStep(actions);
    var before := actions[..|actions| - 1];
    KeysAreOk(before);
    if q < |actions| - 1 {
      RefusedOpenIsUndone(before, q, id);
      RefusalStays(Run(before).value, actions[|actions| - 1], id);
    }
  }

  /** The undo of a refused open unregisters its own id and returns the error. */
  lemma UndoUnregisters(actions: seq<Action>, id: StreamId)
    requires Run(actions).Some? && Step(Run(actions).value, OpenUndone(id)).Some?
    ensures var t := Step(Run(actions).value, OpenUndone(id)).value;
            id in t.failed && id !in t.streams && id !in t.opening && id in t.channels && t.channels[id].closed
  {
  }

  ghost predicate OpenSucceeded(s: State, id: StreamId) {
    id in s.channels && id !in s.opening && id !in s.failed
  }

  lemma SuccessStays(s: State, a: Action, id: StreamId)
    requires OpenSucceeded(s, id) && Step(s, a).Some?
    ensures OpenSucceeded(Step(s, a).value, id)
  {
  }

  /** An open whose command was sent never fails afterwards. */
  lemma {:induction false} SentOpenNeverFails(actions: seq<Action>, q: nat, id: StreamId)
    requires Run(actions).Some? && q < |actions| && actions[q] == OpenOffered(id, true)
    ensures id !in Run(actions).value.failed && id !in Run(actions).value.opening
    ensures OpenSucceeded(Run(actions).value, id)
  {
    RunLastStep(actions);
    var before := actions[..|actions| - 1];
    KeysAreOk(before);
    if q < |actions| - 1 {
      SentOpenNeverFails(before, q, id);
      SuccessStays(Run(before).value, actions[|actions| - 1], id);
    }
  }

  // ----- Pushing -----

  /**
   A chunk pushed by a stream's own agent while the channel has room becomes its next item,
   and the stream stays registered.
  */
  lemma ChunkGetsThrough(actions: seq<Action>, agent: AgentId, id: StreamId, chunk: Chunk)
    requires Run(actions + [PushLookup(agent, id, chunk), PushSent(id)]).Some? && Run(actions).Some?
    requires id in Run(actions).value.streams && Run(actions).value.streams[id].agent == agent
    requires id in Run(actions).value.channels
    requires !Run(actions).value.channels[id].closed && |Run(actions).value.channels[id].queue| < 16
    ensures var s, t := Run(actions).value, Run(actions + [PushLookup(agent, id, chunk), PushSent(id)]).value;
            && id in t.channels && id in t.streams
            && t.channels[id].Items() == s.channels[id].Items() + [Data(chunk)]
  {
    var looked := TwoSteps(actions, PushLookup(agent, id, chunk), PushSent(id));
    KeysAreOk(actions);
    ItemAppended(Run(actions).value.channels[id], Data(chunk));
  }

  lemma TwoSteps(actions: seq<Action>, a: Action, b: Action) returns (mid: State)
    requires Run(actions).Some? && Run(actions + [a, b]).Some?
    ensures Step(Run(actions).value, a) == Some(mid) && Step(mid, b) == Run(actions + [a, b])
  {
    var all := actions + [a, b];
    assert all[..|all| - 1] == actions + [a] && (actions + [a])[..|actions|] == actions;
    mid := Run(actions + [a]).value;
  }

  /** Without room the chunk is dropped and the push goes on to evict the stream. */
  lemma ChunkWithoutRoomEvicts(actions: seq<Action>, id: StreamId)
    requires Run(actions).Some? && Step(Run(actions).value, PushSent(id)).Some?
    requires id in Run(actions).value.channels
    requires Run(actions).value.channels[id].closed || |Run(actions).value.channels[id].queue| == 16
    ensures var s, t := Run(actions).value, Step(Run(actions).value, PushSent(id)).value;
            t.channels == s.channels && Step(t, PushEvicted(id)).Some? && id !in Step(t, PushEvicted(id)).value.streams
  {
    KeysAreOk(actions);
  }

  /** The viewer receives the oldest queued item, and nothing else of the stream changes. */
  lemma ReceiveDelivers(actions: seq<Action>, id: StreamId)
    requires Run(actions).Some? && Step(Run(actions).value, Received(id)).Some?
    ensures var s, t := Run(actions).value, Step(Run(actions).value, Received(id)).value;
            && id in s.channels && id in t.channels && !s.channels[id].closed && s.channels[id].queue != []
            && t.channels[id].Items() == s.channels[id].Items()
            && t.channels[id].delivered == s.channels[id].delivered + [s.channels[id].queue[0]]
  {
    ItemMoves(Run(actions).value.channels[id]);
  }

  lemma ItemMoves(c: Channel)
    requires c.queue != []
    ensures c.(queue := c.queue[1..], delivered := c.delivered + [c.queue[0]]).Items() == c.Items()
  {
  }

  // ----- Closing -----

  /** Gone, with no fault reported and none owed. */
  ghost predicate Silent(s: State, id: StreamId) {
    id in s.channels && id !in s.streams && id !in s.closers && Faults(s.channels[id].Items()) == 0
  }

  lemma SilentKeepsOpen(s: State, handle: Handle, k: StreamId, id: StreamId)
    requires KeysOk(s) && Silent(s, id) && OpenStep(s, handle, k).Some?
    ensures Silent(OpenStep(s, handle, k).value, id)
  {
    assert id !in SamePrinter(s.streams, handle);
  }

  lemma SilentKeepsItem(s: State, a: Action, id: StreamId)
    requires KeysOk(s) && Silent(s, id) && (a.PushSent? || a.Received?) && Step(s, a).Some?
    ensures Silent(Step(s, a).value, id)
  {
    if a.id == id {
      if a.PushSent? && Accepts(s.channels[id]) {
        ItemAppended(s.channels[id], Data(s.producers[id].chunk));
      }
      if a.Received? {
        ItemMoves(s.channels[id]);
      }
    }
  }

  lemma SilentStays(s: State, a: Action, id: StreamId)
    requires KeysOk(s) && Silent(s, id) && Step(s, a).Some?
    ensures Silent(Step(s, a).value, id)
  {
    if a.OpenLocked? {
      SilentKeepsOpen(s, a.handle, a.id, id);
    } else if a.PushSent? || a.Received? {
      SilentKeepsItem(s, a, id);
    }
  }

  /** The owner's close ends the stream, silently on success, else with a fault owed. Any other does nothing. */
  lemma CloseEnds(actions: seq<Action>, agent: AgentId, id: StreamId, success: bool, message: string)
    requires Run(actions).Some?
    ensures Step(Run(actions).value, CloseLocked(agent, id, success, message)).Some?
    ensures var s := Run(actions).value;
            var t := Step(s, CloseLocked(agent, id, success, message)).value;
            if id in s.streams && s.streams[id].agent == agent then
              && id !in t.streams
              && (success ==> Silent(t, id))
              && (!success ==> id in t.closers && t.closers[id] == message)
            else t == s
  {
    if id in Run(actions).value.streams {
      RegisteredIsUnfaulted(actions, id);
    }
  }

  lemma RegisteredIsUnfaulted(actions: seq<Action>, id: StreamId)
    requires Run(actions).Some? && id in Run(actions).value.streams
    ensures var s := Run(actions).value;
            id in s.channels && id !in s.closers && Faults(s.channels[id].Items()) == 0
  {
    RunKeeps(actions);
    assert Sound(Of(Run(actions).value, id));
  }

  /** After a successful close the viewer is never told of a fault. */
  lemma {:induction false} SuccessfulCloseIsSilent(
    actions: seq<Action>, q: nat, agent: AgentId, id: StreamId, message: string)
    requires Run(actions).Some? && q < |actions| && actions[q] == CloseLocked(agent, id, true, message)
    requires Run(actions[..q]).Some? && Owns(Run(actions[..q]).value.streams, agent, id)
    ensures Silent(Run(actions).value, id)
  {
    RunLastStep(actions);
    var before := actions[..|actions| - 1];
    if q == |actions| - 1 {
      CloseEnds(before, agent, id, true, message);
    } else {
      assert before[..q] == actions[..q];
      SuccessfulCloseIsSilent(before, q, agent, id, message);
      KeysAreOk(before);
      SilentStays(Run(before).value, actions[|actions| - 1], id);
    }
  }

  /** The owed fault becomes the last item if the channel has room, and is owed no more. */
  lemma FaultIsDelivered(actions: seq<Action>, id: StreamId)
    requires Run(actions).Some? && id in Run(actions).value.closers
    ensures Step(Run(actions).value, FaultSent(id)).Some?
    ensures var s, t := Run(actions).value, Step(Run(actions).value, FaultSent(id)).value;
            && id !in t.closers && id in s.channels && id in t.channels
            && t.channels[id].Items() ==
               s.channels[id].Items()
               + if !s.channels[id].closed && |s.channels[id].queue| < 16 then [Fault(s.closers[id])] else []
  {
    KeysAreOk(actions);
    var s := Run(actions).value;
    if Accepts(s.channels[id]) {
      ItemAppended(s.channels[id], Fault(s.closers[id]));
    }
  }

  /** An owed fault stays owed, with its message, until it is sent. */
  lemma FaultStaysOwed(actions: seq<Action>, a: Action, id: StreamId)
    requires Run(actions).Some? && Step(Run(actions).value, a).Some? && id in Run(actions).value.closers
    requires a != FaultSent(id)
    ensures var s, t := Run(actions).value, Step(Run(actions).value, a).value;
            id in t.closers && t.closers[id] == s.closers[id]
  {
    OwedIsUnregistered(actions, id);
    StepKeepsOwed(Run(actions).value, a, id);
  }

  lemma OwedIsUnregistered(actions: seq<Action>, id: StreamId)
    requires Run(actions).Some? && id in Run(actions).value.closers
    ensures id !in Run(actions).value.streams
  {
    RunKeeps(actions);
    assert Sound(Of(Run(actions).value, id));
  }

  lemma StepKeepsOwed(s: State, a: Action, id: StreamId)
    requires Step(s, a).Some? && id in s.closers && id !in s.streams && a != FaultSent(id)
    ensures id in Step(s, a).value.closers && Step(s, a).value.closers[id] == s.closers[id]
  {
  }

  /** The end of a session unregisters each of the agent's streams and owes each its fault. */
  lemma SessionEndEndsAll(actions: seq<Action>, agent: AgentId, id: StreamId)
    requires Run(actions).Some? && id in Run(actions).value.streams && Run(actions).value.streams[id].agent == agent
    ensures Step(Run(actions).value, CloseAgentLocked(agent)).Some?
    ensures var t := Step(Run(actions).value, CloseAgentLocked(agent)).value;
            id !in t.streams && id in t.closers && t.closers[id] == "agent_session_closed"
  {
  }

  // ----- Dropping -----

  lemma DroppedStays(s: State, a: Action, id: StreamId)
    requires id in s.channels && s.channels[id].closed && Step(s, a).Some?
    ensures id in Step(s, a).value.channels && Step(s, a).value.channels[id] == s.channels[id]
  {
  }

  lemma DropCloses(s: State, id: StreamId)
    requires Step(s, Dropped(id)).Some?
    ensures id in s.channels && id in Step(s, Dropped(id)).value.channels
    ensures Step(s, Dropped(id)).value.channels[id] == s.channels[id].(closed := true)
  {
  }

  /** Once the viewer has gone its stream accepts and delivers nothing more. */
  lemma {:induction false} DroppedIsFinal(actions: seq<Action>, q: nat, id: StreamId)
    requires Run(actions).Some? && q < |actions| && actions[q] == Dropped(id)
    ensures Run(actions[..q]).Some? && id in Run(actions[..q]).value.channels && id in Run(actions).value.channels
    ensures Run(actions).value.channels[id] == Run(actions[..q]).value.channels[id].(closed := true)
  {
    RunLastStep(actions);
    var before := actions[..|actions| - 1];
    if q == |actions| - 1 {
      DropCloses(Run(before).value, id);
    } else {
      assert before[..q] == actions[..q];
      DroppedIsFinal(before, q, id);
      DroppedStays(Run(before).value, actions[|actions| - 1], id);
    }
  }

  /** And its abort can always run, and unregisters it. */
  lemma AbortUnregisters(actions: seq<Action>, id: StreamId)
    requires Run(actions).Some? && id in Run(actions).value.channels && Run(actions).value.channels[id].closed
    ensures Step(Run(actions).value, AbortLocked(id)).Some?
    ensures Step(Run(actions).value, AbortLocked(id)).value ==
            Run(actions).value.(streams := Run(actions).value.streams - {id})
  {
  }
}
