/**
 The lock sections of crates/pandar-hub/src/camera_sessions.rs on the mutable map they
 guard, proved against the step system.
*/
module CameraRegistry {
  import opened CameraSessions

  class Registry {
    var streams: Streams
    var channels: Channels

    constructor ()
      ensures streams == map[] && channels == map[]
    {
      streams, channels := map[], map[];
    }

    /** Every registered stream has its channel. */
    ghost predicate Valid()
      reads this
    {
      streams.Keys <= channels.Keys
    }

    /** The registry of a step-system state. */
    ghost predicate Shows(s: State)
      reads this
    {
      streams == s.streams && channels == s.channels
    }

    /** Open: fault and forget every stream of the same printer, then register the new one. */
    method OpenSection(ghost s: State, handle: Handle, id: StreamId) returns (replaced: set<StreamId>)
      requires Valid() && Shows(s) && id !in channels
      modifies this
      ensures Valid() && Shows(OpenStep(s, handle, id).value)
      ensures replaced == SamePrinter(old(streams), handle)
    {
      replaced := SamePrinter(streams, handle);
      var rest := replaced;
      while rest != {}
        invariant rest <= replaced
        invariant streams == old(streams) - (replaced - rest)
        invariant channels == FaultAll(old(channels), replaced - rest, "camera_replaced")
        decreases rest
      {
        var k :| k in rest;
        rest := rest - {k};
        assert replaced - rest == (replaced - (rest + {k})) + {k};
        streams := streams - {k};
        channels := channels[k := TrySend(channels[k], Fault("camera_replaced"))];
      }
      assert replaced - rest == replaced;
      streams := streams[id := handle];
      channels := channels[id := Channel(handle.agent, [], [], false)];
    }

    /**
     Push, first section: whether the sender of the agent's own stream was cloned. The table
     is only read; the producer holds its chunk for that stream exactly when it was found.
    */
    method LookupSection(ghost s: State, agent: AgentId, id: StreamId, ghost chunk: Chunk) returns (found: bool)
      requires Valid() && Shows(s) && KeysOk(s) && LookupStep(s, agent, id, chunk).Some?
      ensures Valid() && Shows(LookupStep(s, agent, id, chunk).value)
      ensures found <==> Owns(streams, agent, id)
      ensures LookupStep(s, agent, id, chunk).value.producers ==
                if found then s.producers[id := Holding(chunk)] else s.producers
    {
      found := id in streams && streams[id].agent == agent;
    }

    /** Push, second section: forget the stream whose channel refused a chunk. */
    method EvictSection(ghost s: State, id: StreamId)
      requires Valid() && Shows(s) && EvictStep(s, id).Some?
      modifies `streams
      ensures Valid() && Shows(EvictStep(s, id).value)
    {
      if id in streams && streams[id].agent == channels[id].agent {
        streams := streams - {id};
      }
    }

    /** Close: remove the agent's own stream, and say whether it was there. */
    method CloseSection(ghost s: State, agent: AgentId, id: StreamId, success: bool, message: string)
      returns (owned: bool)
      requires Valid() && Shows(s)
      modifies `streams
      ensures Valid() && Shows(CloseStep(s, agent, id, success, message).value)
      ensures owned <==> Owns(old(streams), agent, id)
    {
      owned := id in streams && streams[id].agent == agent;
      if owned {
        streams := streams - {id};
      }
    }

    /** Session end: remove every stream of the agent, one by one. */
    method CloseAgentSection(ghost s: State, agent: AgentId) returns (closed: set<StreamId>)
      requires Valid() && Shows(s)
      modifies `streams
      ensures Valid() && Shows(CloseAgentStep(s, agent).value)
      ensures closed == OfAgent(old(streams), agent)
      ensures OfAgent(streams, agent) == {}
    {
      closed := OfAgent(streams, agent);
      var rest := closed;
      while rest != {}
        invariant rest <= closed
        invariant streams == old(streams) - (closed - rest)
        decreases rest
      {
        var k :| k in rest;
        rest := rest - {k};
        streams := streams - {k};
      }
    }
  }
}
