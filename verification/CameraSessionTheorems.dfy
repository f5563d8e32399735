/** What every interleaving of the hub's camera registry keeps. */
module CameraSessionTheorems {
  import opened Basics
  import opened CameraSessions

  lemma {:induction false} ChunksOfConcat(a: seq<Item>, b: seq<Item>)
    ensures Chunks(a + b) == Chunks(a) + Chunks(b)
  {
    if b == [] {
      assert a + b == a;
    } else {
      var n := |a + b| - 1;
      assert (a + b)[..n] == a + b[..|b| - 1];
      ChunksOfConcat(a, b[..|b| - 1]);
    }
  }

  /**
   Under every interleaving, what a viewer has received from a stream is a gap-free prefix
   of what its agent pushed to it; at most one fault is ever reported, at most one chunk
   follows it, and the queue stays within its capacity.
  */
  lemma DeliveryIsGapFree(actions: seq<Action>, id: StreamId)
    requires Run(actions).Some? && id in Run(actions).value.channels
    ensures var s := Run(actions).value;
            && id in s.pushed
            && Chunks(s.channels[id].delivered) <= s.pushed[id]
            && Chunks(s.channels[id].delivered + s.channels[id].queue) <= s.pushed[id]
            && Faults(s.channels[id].Items()) <= 1
            && AfterFault(s.channels[id].Items()) <= 1
            && |s.channels[id].queue| <= CHANNEL_CAPACITY
  {
    RunKeeps(actions);
    var s := Run(actions).value;
    assert Sound(Of(s, id));
    ChunksOfConcat(s.channels[id].delivered, s.channels[id].queue);
  }

  /** While a stream is registered and no push is under way, nothing pushed has been lost. */
  lemma RegisteredStreamIsComplete(actions: seq<Action>, id: StreamId)
    requires Run(actions).Some? && id in Run(actions).value.streams
    requires id in Run(actions).value.producers && Run(actions).value.producers[id].Idle?
    ensures var s := Run(actions).value;
            id in s.channels && id in s.pushed && Chunks(s.channels[id].Items()) == s.pushed[id]
  {
    RunKeeps(actions);
    assert Sound(Of(Run(actions).value, id));
  }

  /** After every lock section at most one stream is registered per agent and printer. */
  lemma {:induction false} OneStreamPerPrinter(actions: seq<Action>, a: StreamId, b: StreamId)
    requires Run(actions).Some?
    requires a in Run(actions).value.streams && b in Run(actions).value.streams
    requires Run(actions).value.streams[a].agent == Run(actions).value.streams[b].agent
    requires Run(actions).value.streams[a].serial == Run(actions).value.streams[b].serial
    ensures a == b
  {
    RunKeeps(actions);
  }

  /** A replaced stream is unregistered and, if its channel has room, told so as its last item. */
  lemma ReplacementIsAnnounced(actions: seq<Action>, handle: Handle, id: StreamId, replaced: StreamId)
    requires Run(actions).Some? && Step(Run(actions).value, OpenLocked(handle, id)).Some?
    requires replaced in Run(actions).value.streams && Run(actions).value.streams[replaced] == handle
    ensures var s, t := Run(actions).value, Step(Run(actions).value, OpenLocked(handle, id)).value;
            && replaced in s.channels && replaced in t.channels && replaced !in t.streams
            && id in t.streams && t.streams[id] == handle
            && (!s.channels[replaced].closed && |s.channels[replaced].queue| < 16 ==>
                  t.channels[replaced].Items() == s.channels[replaced].Items() + [Fault("camera_replaced")])
  {
    RunKeeps(actions);
    var s := Run(actions).value;
    if Accepts(s.channels[replaced]) {
      ItemAppended(s.channels[replaced], Fault("camera_replaced"));
    }
  }

  lemma RunContinues(actions: seq<Action>, more: seq<Action>)
    requires more != [] && Run(actions + more).Some?
    ensures var before := Run(actions + more[..|more| - 1]);
            before.Some? && Step(before.value, more[|more| - 1]) == Run(actions + more)
  {
    FrontOf(actions, more);
  }

  lemma FrontOf(actions: seq<Action>, more: seq<Action>)
    requires more != []
    ensures var all := actions + more;
            all[..|all| - 1] == actions + more[..|more| - 1] && all[|all| - 1] == more[|more| - 1]
  {
  }

  // ----- A stream that has ended stays ended -----

  /** Unregistered, with no send under way. */
  ghost predicate Ended(s: State, id: StreamId) {
    id in s.channels && id !in s.streams && (id in s.producers ==> !s.producers[id].Holding?)
  }

  lemma EndedSurvivesOpen(s: State, handle: Handle, k: StreamId, id: StreamId)
    requires KeysOk(s) && Ended(s, id) && OpenStep(s, handle, k).Some?
    ensures var t := OpenStep(s, handle, k).value;
            Ended(t, id) && t.channels[id] == s.channels[id]
  {
  }

  lemma EndedStays(s: State, a: Action, id: StreamId)
    requires KeysOk(s) && Ended(s, id) && Step(s, a).Some?
    ensures Ended(Step(s, a).value, id)
  {
    match a
    case OpenLocked(handle, k) => EndedSurvivesOpen(s, handle, k, id);
    case PushLookup(agent, k, chunk) =>
    case PushSent(k) =>
    case _ =>
  }

  /** Steps other than an open or a fault leave the items of an ended stream as they are. */
  lemma EndedKeepsItems(s: State, a: Action, id: StreamId)
    requires KeysOk(s) && Ended(s, id) && Step(s, a).Some? && !a.OpenLocked? && !a.FaultSent?
    ensures id in Step(s, a).value.channels
    ensures Step(s, a).value.channels[id].Items() == s.channels[id].Items()
  {
  }

  lemma EndedAcceptsNoChunk(s: State, a: Action, id: StreamId)
    requires KeysOk(s) && Ended(s, id) && Step(s, a).Some?
    ensures id in Step(s, a).value.channels
    ensures Chunks(Step(s, a).value.channels[id].Items()) == Chunks(s.channels[id].Items())
  {
    if a.OpenLocked? {
      EndedSurvivesOpen(s, a.handle, a.id, id);
    } else if a.FaultSent? {
      if a.id == id && Accepts(s.channels[id]) {
        ItemAppended(s.channels[id], Fault(s.closers[id]));
      }
    } else {
      EndedKeepsItems(s, a, id);
    }
  }

  /** An overflow, close, replacement or abort ends a stream for good: no later chunk gets in. */
  lemma {:induction false} EndedIsFinal(actions: seq<Action>, more: seq<Action>, id: StreamId)
    requires Run(actions).Some? && Ended(Run(actions).value, id)
    requires Run(actions + more).Some?
    ensures Ended(Run(actions + more).value, id)
    ensures Chunks(Run(actions + more).value.channels[id].Items()) == Chunks(Run(actions).value.channels[id].Items())
    decreases |more|
  {
    if more == [] {
      assert actions + more == actions;
    } else {
      RunContinues(actions, more);
      var before := actions + more[..|more| - 1];
      EndedIsFinal(actions, more[..|more| - 1], id);
      RunKeeps(before);
      EndedStays(Run(before).value, more[|more| - 1], id);
      EndedAcceptsNoChunk(Run(before).value, more[|more| - 1], id);
    }
  }

  /** A send that did not fit ends the stream at its eviction, before any further chunk. */
  lemma OverflowEndsStream(actions: seq<Action>, id: StreamId)
    requires Run(actions).Some? && Step(Run(actions).value, PushEvicted(id)).Some?
    ensures Ended(Step(Run(actions).value, PushEvicted(id)).value, id)
  {
    RunKeeps(actions);
  }

  lemma FailuresAreKept(s: State, a: Action)
    requires Step(s, a).Some?
    ensures s.failed <= Step(s, a).value.failed
  {
  }

  lemma {:induction false} FailureIsRemembered(actions: seq<Action>, more: seq<Action>, id: StreamId)
    requires Run(actions).Some? && id in Run(actions).value.failed
    requires Run(actions + more).Some?
    ensures id in Run(actions + more).value.failed
    decreases |more|
  {
    if more == [] {
      assert actions + more == actions;
    } else {
      RunContinues(actions, more);
      FailureIsRemembered(actions, more[..|more| - 1], id);
      FailuresAreKept(Run(actions + more[..|more| - 1]).value, more[|more| - 1]);
    }
  }

  /** An open that returned an error leaves its own id unregistered, then and ever after. */
  lemma {:induction false} FailedOpenIsUnregistered(actions: seq<Action>, more: seq<Action>, id: StreamId)
    requires Run(actions).Some? && id in Run(actions).value.failed
    requires Run(actions + more).Some?
    ensures id !in Run(actions + more).value.streams
  {
    FailureIsRemembered(actions, more, id);
    RunKeeps(actions + more);
  }

  // ----- Agents do not reach each other's streams -----

  /** The agent on whose behalf a step runs; viewers' own steps have none. */
  function Actor(s: State, a: Action): Option<AgentId> {
    match a
    case OpenLocked(handle, _) => Some(handle.agent)
    case PushLookup(agent, _, _) => Some(agent)
    case CloseLocked(agent, _, _, _) => Some(agent)
    case CloseAgentLocked(agent) => Some(agent)
    case PushSent(id) => if id in s.channels then Some(s.channels[id].agent) else None
    case PushEvicted(id) => if id in s.channels then Some(s.channels[id].agent) else None
    case FaultSent(id) => if id in s.channels then Some(s.channels[id].agent) else None
    case _ => None
  }

  /** The part of a state that belongs to one stream. */
  ghost predicate SameStream(s: State, t: State, id: StreamId) {
    && id in s.channels && id in t.channels && t.channels[id] == s.channels[id]
    && (id in t.streams <==> id in s.streams)
    && (id in s.streams ==> t.streams[id] == s.streams[id])
    && (id in t.closers <==> id in s.closers)
    && (id in s.closers ==> t.closers[id] == s.closers[id])
    && (id in t.opening <==> id in s.opening)
    && (id in s.opening ==> t.opening[id] == s.opening[id])
    && (id in t.failed <==> id in s.failed)
    && id in s.pushed && id in t.pushed && t.pushed[id] == s.pushed[id]
    && id in s.producers && id in t.producers && t.producers[id] == s.producers[id]
  }

  lemma OthersOpenUntouched(s: State, handle: Handle, k: StreamId, id: StreamId)
    requires KeysOk(s) && OpenStep(s, handle, k).Some? && id in s.channels && s.channels[id].agent != handle.agent
    ensures SameStream(s, OpenStep(s, handle, k).value, id)
  {
  }

  lemma OthersPushUntouched(s: State, a: Action, id: StreamId)
    requires KeysOk(s) && (a.PushLookup? || a.PushSent? || a.PushEvicted?) && Step(s, a).Some? && id in s.channels
    requires Actor(s, a).Some? && Actor(s, a).value != s.channels[id].agent
    ensures SameStream(s, Step(s, a).value, id)
  {
  }

  lemma OthersCloseUntouched(s: State, a: Action, id: StreamId)
    requires KeysOk(s) && Step(s, a).Some? && id in s.channels
    requires a.CloseLocked? || a.CloseAgentLocked? || a.FaultSent?
    requires Actor(s, a).Some? && Actor(s, a).value != s.channels[id].agent
    ensures SameStream(s, Step(s, a).value, id)
  {
  }

  lemma OthersUntouchedByStep(s: State, a: Action, id: StreamId)
    requires KeysOk(s) && Step(s, a).Some? && id in s.channels
    requires Actor(s, a).Some? && Actor(s, a).value != s.channels[id].agent
    ensures SameStream(s, Step(s, a).value, id)
  {
    if a.OpenLocked? {
      OthersOpenUntouched(s, a.handle, a.id, id);
    } else if a.PushLookup? || a.PushSent? || a.PushEvicted? {
      OthersPushUntouched(s, a, id);
    } else {
      OthersCloseUntouched(s, a, id);
    }
  }

  /** A chunk, close, replacement or session end of one agent changes nothing of another's stream. */
  lemma OtherAgentsUntouched(actions: seq<Action>, a: Action, id: StreamId)
    requires Run(actions).Some? && Step(Run(actions).value, a).Some?
    requires id in Run(actions).value.channels
    requires Actor(Run(actions).value, a).Some?
    requires Actor(Run(actions).value, a).value != Run(actions).value.channels[id].agent
    ensures SameStream(Run(actions).value, Step(Run(actions).value, a).value, id)
  {
    RunKeeps(actions);
    OthersUntouchedByStep(Run(actions).value, a, id);
  }
}
