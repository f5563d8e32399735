/**
 The hub's camera session registry (crates/pandar-hub/src/camera_sessions.rs) as a step
 system. Each lock section is one step, and so is each channel send made outside the
 lock, so operations with two lock sections interleave with everything else.

 Stream ids are fresh (the source draws a version 4 UUID), and the chunks of one stream
 come from one sequential producer (crates/pandar-hub/src/grpc.rs, the reverse camera
 loop), which finishes one push before it starts the next.
*/
module CameraSessions {
  import opened Basics

  const CHANNEL_CAPACITY := 16

  type StreamId = nat
  type AgentId = nat
  type Chunk = seq<byte>

  datatype Handle = Handle(agent: AgentId, serial: string)

  datatype Item = Data(chunk: Chunk) | Fault(message: string)

  /** A stream's bounded channel; `closed` once the HTTP side has dropped its receiver. */
  datatype Channel = Channel(agent: AgentId, queue: seq<Item>, delivered: seq<Item>, closed: bool) {
    /** Everything the channel ever accepted, in order. */
    function Items(): seq<Item> {
      delivered + queue
    }
  }

  /** A push between its lookup and its end. */
  datatype Producer = Idle | Holding(chunk: Chunk) | Evicting

  /** An open between its lock section and its return. */
  datatype Opening = Offering | Refused

  type Streams = map<StreamId, Handle>
  type Channels = map<StreamId, Channel>

  /**
   `streams` is the locked map; `closers` are removed streams whose remover still has to
   report a fault to them; `pushed` lists the chunks each stream's own agent pushed;
   `failed` are the ids whose open returned an error.
  */
  datatype State = State(
    streams: Streams,
    channels: Channels,
    opening: map<StreamId, Opening>,
    producers: map<StreamId, Producer>,
    pushed: map<StreamId, seq<Chunk>>,
    closers: map<StreamId, string>,
    failed: set<StreamId>)

  function Initial(): State {
    State(map[], map[], map[], map[], map[], map[], {})
  }

  predicate Accepts(c: Channel) {
    !c.closed && |c.queue| < CHANNEL_CAPACITY
  }

  /** `try_send`: a full or closed channel keeps what it has. */
  function TrySend(c: Channel, item: Item): Channel {
    if Accepts(c) then c.(queue := c.queue + [item]) else c
  }

  /** `try_send` of one fault to each of some streams. */
  function FaultAll(channels: Channels, ids: set<StreamId>, message: string): Channels {
    map k | k in channels :: if k in ids then TrySend(channels[k], Fault(message)) else channels[k]
  }

  /** Registered streams of one printer. */
  function SamePrinter(streams: Streams, handle: Handle): set<StreamId> {
    set k | k in streams && streams[k] == handle
  }

  function OfAgent(streams: Streams, agent: AgentId): set<StreamId> {
    set k | k in streams && streams[k].agent == agent
  }

  predicate Owns(streams: Streams, agent: AgentId, id: StreamId) {
    id in streams && streams[id].agent == agent
  }

  // ----- Steps -----

  datatype Action =
    | OpenLocked(handle: Handle, id: StreamId)
    | OpenOffered(id: StreamId, sent: bool)
    | OpenUndone(id: StreamId)
    | PushLookup(agent: AgentId, id: StreamId, chunk: Chunk)
    | PushSent(id: StreamId)
    | PushEvicted(id: StreamId)
    | CloseLocked(agent: AgentId, id: StreamId, success: bool, message: string)
    | CloseAgentLocked(agent: AgentId)
    | FaultSent(id: StreamId)
    | Dropped(id: StreamId)
    | AbortLocked(id: StreamId)
    | Received(id: StreamId)

  /** The lock section of `open_stream_with_mode`. */
  function OpenStep(s: State, handle: Handle, id: StreamId): Option<State> {
    if id in s.channels then None
    else
      var replaced := SamePrinter(s.streams, handle);
      Some(s.(streams := (s.streams - replaced)[id := handle],
              channels := FaultAll(s.channels, replaced, "camera_replaced")[id := Channel(handle.agent, [], [], false)],
              opening := s.opening[id := Offering],
              producers := s.producers[id := Idle],
              pushed := s.pushed[id := []]))
  }

  /** The first lock section of `push_chunk`: clone the sender of one's own stream. */
  function LookupStep(s: State, agent: AgentId, id: StreamId, chunk: Chunk): Option<State> {
    if id !in s.channels || s.channels[id].agent != agent then Some(s)
    else if id !in s.producers || id !in s.pushed || !s.producers[id].Idle? then None
    else
      Some(s.(pushed := s.pushed[id := s.pushed[id] + [chunk]],
              producers := s.producers[id := if Owns(s.streams, agent, id) then Holding(chunk) else Idle]))
  }

  function SendStep(s: State, id: StreamId): Option<State> {
    if id !in s.channels || id !in s.producers || !s.producers[id].Holding? then None
    else if Accepts(s.channels[id]) then
      Some(s.(channels := s.channels[id := TrySend(s.channels[id], Data(s.producers[id].chunk))],
              producers := s.producers[id := Idle]))
    else Some(s.(producers := s.producers[id := Evicting]))
  }

  /** The second lock section of a refused open. */
  function UndoStep(s: State, id: StreamId): Option<State> {
    if id !in s.opening || !s.opening[id].Refused? || id !in s.channels then None
    else Some(s.(streams := s.streams - {id},
                 channels := s.channels[id := s.channels[id].(closed := true)],
                 opening := s.opening - {id},
                 failed := s.failed + {id}))
  }

  /** The second lock section of a push whose send failed. */
  function EvictStep(s: State, id: StreamId): Option<State> {
    if id !in s.channels || id !in s.producers || !s.producers[id].Evicting? then None
    else Some(s.(streams := if Owns(s.streams, s.channels[id].agent, id) then s.streams - {id} else s.streams,
                 producers := s.producers[id := Idle]))
  }

  function CloseStep(s: State, agent: AgentId, id: StreamId, success: bool, message: string): Option<State> {
    if !Owns(s.streams, agent, id) then Some(s)
    else Some(s.(streams := s.streams - {id}, closers := if success then s.closers else s.closers[id := message]))
  }

  function CloseAgentStep(s: State, agent: AgentId): Option<State> {
    var ids := OfAgent(s.streams, agent);
    Some(s.(streams := s.streams - ids, closers := s.closers + map k | k in ids :: "agent_session_closed"))
  }

  function FaultStep(s: State, id: StreamId): Option<State> {
    if id !in s.closers || id !in s.channels then None
    else Some(s.(channels := s.channels[id := TrySend(s.channels[id], Fault(s.closers[id]))],
                 closers := s.closers - {id}))
  }

  function ReceiveStep(s: State, id: StreamId): Option<State> {
    if id !in s.channels || s.channels[id].closed || s.channels[id].queue == [] then None
    else
      var c := s.channels[id];
      Some(s.(channels := s.channels[id := c.(queue := c.queue[1..], delivered := c.delivered + [c.queue[0]])]))
  }

  function DropStep(s: State, id: StreamId): Option<State> {
    if id !in s.channels || id in s.opening then None
    else Some(s.(channels := s.channels[id := s.channels[id].(closed := true)]))
  }

  function Step(s: State, a: Action): Option<State> {
    match a
    case OpenLocked(handle, id) => OpenStep(s, handle, id)
    case OpenOffered(id, sent) =>
      if id !in s.opening || !s.opening[id].Offering? then None
      else Some(s.(opening := if sent then s.opening - {id} else s.opening[id := Refused]))
    case OpenUndone(id) => UndoStep(s, id)
    case PushLookup(agent, id, chunk) => LookupStep(s, agent, id, chunk)
    case PushSent(id) => SendStep(s, id)
    case PushEvicted(id) => EvictStep(s, id)
    case CloseLocked(agent, id, success, message) => CloseStep(s, agent, id, success, message)
    case CloseAgentLocked(agent) => CloseAgentStep(s, agent)
    case FaultSent(id) => FaultStep(s, id)
    case Dropped(id) => DropStep(s, id)
    case AbortLocked(id) =>
      if id !in s.channels || !s.channels[id].closed then None
      else Some(s.(streams := s.streams - {id}))
    case Received(id) => ReceiveStep(s, id)
  }

  function Run(actions: seq<Action>): Option<State> {
    if actions == [] then Some(Initial())
    else
      match Run(actions[..|actions| - 1])
      case None => None
      case Some(s) => Step(s, actions[|actions| - 1])
  }

  // ----- Views of a channel -----

  /** The chunks among some items, in order. */
  function Chunks(items: seq<Item>): seq<Chunk> {
    if items == [] then []
    else Chunks(items[..|items| - 1]) +
         if items[|items| - 1].Data? then [items[|items| - 1].chunk] else []
  }

  function Faults(items: seq<Item>): nat {
    if items == [] then 0
    else Faults(items[..|items| - 1]) + if items[|items| - 1].Fault? then 1 else 0
  }

  /** How many items follow the first fault. */
  function AfterFault(items: seq<Item>): nat {
    if items == [] || Faults(items[..|items| - 1]) == 0 then 0 else AfterFault(items[..|items| - 1]) + 1
  }

  lemma ItemAppended(c: Channel, item: Item)
    requires Accepts(c)
    ensures var c' := TrySend(c, item);
            && c'.Items() == c.Items() + [item]
            && Chunks(c'.Items()) == Chunks(c.Items()) + (if item.Data? then [item.chunk] else [])
            && Faults(c'.Items()) == Faults(c.Items()) + (if item.Fault? then 1 else 0)
            && AfterFault(c'.Items()) == if Faults(c.Items()) == 0 then 0 else AfterFault(c.Items()) + 1
  {
    var c' := TrySend(c, item);
    assert c'.Items() == c.Items() + [item];
    assert c'.Items()[..|c'.Items()| - 1] == c.Items();
  }

  lemma {:induction false} NoFaultNothingAfter(items: seq<Item>)
    ensures Faults(items) == 0 ==> AfterFault(items) == 0
  {
  }

  // ----- One stream -----

  /** One stream as the invariant sees it: registered or not, owed a fault or not. */
  datatype View = View(c: Channel, p: Producer, pushed: seq<Chunk>, registered: bool, closing: bool)

  /**
   What the channel accepted is a prefix of what was pushed, complete while the stream is
   registered, with at most one fault and at most one chunk after it.
  */
  ghost predicate Sound(v: View) {
    var items := v.c.Items();
    && |v.c.queue| <= CHANNEL_CAPACITY
    && Chunks(items) <= v.pushed
    && (v.registered && v.p.Idle? ==> Chunks(items) == v.pushed)
    && (v.p.Holding? ==> Chunks(items) + [v.p.chunk] == v.pushed)
    && (v.registered ==> !v.closing)
    && (v.registered || v.closing ==> Faults(items) == 0)
    && Faults(items) <= 1
    && AfterFault(items) + (if v.p.Holding? then 1 else 0) <= 1
  }

  lemma FaultedSound(v: View, message: string)
    requires Sound(v) && (v.registered || v.closing)
    ensures Sound(v.(c := TrySend(v.c, Fault(message)), registered := false, closing := false))
  {
    NoFaultNothingAfter(v.c.Items());
    if Accepts(v.c) {
      ItemAppended(v.c, Fault(message));
    }
  }

  lemma SentSound(v: View)
    requires Sound(v) && v.p.Holding?
    ensures if Accepts(v.c) then Sound(v.(c := TrySend(v.c, Data(v.p.chunk)), p := Idle)) else Sound(v.(p := Evicting))
  {
    if Accepts(v.c) {
      ItemAppended(v.c, Data(v.p.chunk));
    }
  }

  lemma LookedUpSound(v: View, chunk: Chunk)
    requires Sound(v) && v.p.Idle?
    ensures Sound(v.(p := if v.registered then Holding(chunk) else Idle, pushed := v.pushed + [chunk]))
  {
    NoFaultNothingAfter(v.c.Items());
  }

  lemma RemovedSound(v: View)
    requires Sound(v)
    ensures Sound(v.(registered := false))
    ensures v.registered ==> Sound(v.(registered := false, closing := true))
    ensures v.p.Evicting? ==> Sound(v.(registered := false, p := Idle))
  {
  }

  lemma SameItemsSound(v: View, c: Channel)
    requires Sound(v) && c.Items() == v.c.Items() && |c.queue| <= |v.c.queue|
    ensures Sound(v.(c := c))
  {
  }

  lemma FreshSound(c: Channel)
    requires c.queue == [] && c.delivered == []
    ensures Sound(View(c, Idle, [], true, false))
  {
    assert c.Items() == [];
  }

  // ----- The invariant -----

  ghost function Of(s: State, id: StreamId): View
    requires id in s.channels && id in s.producers && id in s.pushed
  {
    View(s.channels[id], s.producers[id], s.pushed[id], id in s.streams, id in s.closers)
  }

  /** A registered stream belongs to the agent its channel was made for. */
  ghost predicate Owned(streams: Streams, channels: Channels) {
    forall id | id in streams :: id in channels && streams[id].agent == channels[id].agent
  }

  ghost predicate OnePerPrinter(streams: Streams) {
    forall a, b | a in streams && b in streams && a != b :: streams[a] != streams[b]
  }

  ghost predicate KeysOk(s: State) {
    && s.streams.Keys <= s.channels.Keys
    && s.opening.Keys <= s.channels.Keys && s.closers.Keys <= s.channels.Keys && s.failed <= s.channels.Keys
    && s.producers.Keys == s.channels.Keys && s.pushed.Keys == s.channels.Keys
    && Owned(s.streams, s.channels) && OnePerPrinter(s.streams)
    && (forall id | id in s.failed :: id !in s.streams && id !in s.opening)
  }

  ghost predicate AllSound(s: State)
    requires KeysOk(s)
  {
    forall id | id in s.channels :: Sound(Of(s, id))
  }

  ghost predicate Inv(s: State) {
    KeysOk(s) && AllSound(s)
  }

  lemma OpenKeys(s: State, handle: Handle, id: StreamId)
    requires KeysOk(s) && OpenStep(s, handle, id).Some?
    ensures KeysOk(OpenStep(s, handle, id).value)
  {
    OpenedStreams(s.streams, s.channels, handle, id);
    OpenedOwners(s.streams, s.channels, handle, id);
    assert OpenStep(s, handle, id).value.channels.Keys == s.channels.Keys + {id};
  }

  lemma OpenedStreams(streams: Streams, channels: Channels, handle: Handle, id: StreamId)
    requires OnePerPrinter(streams) && Owned(streams, channels) && id !in channels
    ensures OnePerPrinter((streams - SamePrinter(streams, handle))[id := handle])
  {
  }

  lemma OpenedOwners(streams: Streams, channels: Channels, handle: Handle, id: StreamId)
    requires Owned(streams, channels) && id !in channels
    ensures var replaced := SamePrinter(streams, handle);
            Owned((streams - replaced)[id := handle],
                  FaultAll(channels, replaced, "camera_replaced")[id := Channel(handle.agent, [], [], false)])
  {
  }

  /** From `s` to `t` only stream `id` may look different. */
  ghost predicate OnlyChanges(s: State, t: State, id: StreamId)
    requires KeysOk(s)
  {
    && KeysOk(t) && t.channels.Keys == s.channels.Keys && id in s.channels
    && forall k | k in s.channels && k != id :: Of(t, k) == Of(s, k)
  }

  lemma OneChanged(s: State, t: State, id: StreamId)
    requires Inv(s) && OnlyChanges(s, t, id) && Sound(Of(t, id))
    ensures Inv(t)
  {
    forall k | k in t.channels
      ensures Sound(Of(t, k))
    {
      assert k != id ==> Of(t, k) == Of(s, k) && Sound(Of(s, k));
    }
  }

  lemma OpenKeeps(s: State, handle: Handle, id: StreamId)
    requires Inv(s) && OpenStep(s, handle, id).Some?
    ensures Inv(OpenStep(s, handle, id).value)
  {
    var t := OpenStep(s, handle, id).value;
    OpenKeys(s, handle, id);
    forall k | k in t.channels
      ensures Sound(Of(t, k))
    {
      if k == id {
        FreshSound(t.channels[id]);
        assert Of(t, id) == View(t.channels[id], Idle, [], true, false);
      } else {
        assert Sound(Of(s, k));
        if k in SamePrinter(s.streams, handle) {
          FaultedSound(Of(s, k), "camera_replaced");
          assert Of(t, k) == Of(s, k).(c := TrySend(s.channels[k], Fault("camera_replaced")),
                                      registered := false, closing := false);
        } else {
          assert Of(t, k) == Of(s, k);
        }
      }
    }
  }

  lemma LookupChanges(s: State, agent: AgentId, id: StreamId, chunk: Chunk)
    requires KeysOk(s) && LookupStep(s, agent, id, chunk).Some? && id in s.channels && s.channels[id].agent == agent
    ensures var t := LookupStep(s, agent, id, chunk).value;
            && OnlyChanges(s, t, id)
            && s.producers[id].Idle?
            && Of(t, id) == Of(s, id).(p := if id in s.streams then Holding(chunk) else Idle,
                                       pushed := s.pushed[id] + [chunk])
  {
  }

  lemma LookupKeeps(s: State, agent: AgentId, id: StreamId, chunk: Chunk)
    requires Inv(s) && LookupStep(s, agent, id, chunk).Some?
    ensures Inv(LookupStep(s, agent, id, chunk).value)
  {
    if id in s.channels && s.channels[id].agent == agent {
      LookupChanges(s, agent, id, chunk);
      LookedUpSound(Of(s, id), chunk);
      OneChanged(s, LookupStep(s, agent, id, chunk).value, id);
    }
  }

  lemma SendChanges(s: State, id: StreamId)
    requires KeysOk(s) && SendStep(s, id).Some?
    ensures var t := SendStep(s, id).value;
            && OnlyChanges(s, t, id)
            && s.producers[id].Holding?
            && Of(t, id) == if Accepts(s.channels[id])
                            then Of(s, id).(c := TrySend(s.channels[id], Data(s.producers[id].chunk)), p := Idle)
                            else Of(s, id).(p := Evicting)
  {
  }

  lemma SendKeeps(s: State, id: StreamId)
    requires Inv(s) && SendStep(s, id).Some?
    ensures Inv(SendStep(s, id).value)
  {
    SendChanges(s, id);
    SentSound(Of(s, id));
    OneChanged(s, SendStep(s, id).value, id);
  }

  lemma FaultChanges(s: State, id: StreamId)
    requires KeysOk(s) && FaultStep(s, id).Some?
    ensures var t := FaultStep(s, id).value;
            && OnlyChanges(s, t, id)
            && Of(t, id) == Of(s, id).(c := TrySend(s.channels[id], Fault(s.closers[id])), closing := false)
  {
  }

  lemma FaultKeeps(s: State, id: StreamId)
    requires Inv(s) && FaultStep(s, id).Some?
    ensures Inv(FaultStep(s, id).value)
  {
    FaultChanges(s, id);
    assert Sound(Of(s, id)) && Of(s, id).closing;
    FaultedSound(Of(s, id), s.closers[id]);
    OneChanged(s, FaultStep(s, id).value, id);
  }

  lemma ReceiveChanges(s: State, id: StreamId)
    requires KeysOk(s) && ReceiveStep(s, id).Some?
    ensures var t := ReceiveStep(s, id).value;
            && OnlyChanges(s, t, id)
            && Of(t, id) == Of(s, id).(c := t.channels[id])
            && t.channels[id].Items() == s.channels[id].Items()
            && |t.channels[id].queue| < |s.channels[id].queue|
  {
  }

  lemma ReceiveKeeps(s: State, id: StreamId)
    requires Inv(s) && ReceiveStep(s, id).Some?
    ensures Inv(ReceiveStep(s, id).value)
  {
    ReceiveChanges(s, id);
    SameItemsSound(Of(s, id), ReceiveStep(s, id).value.channels[id]);
    OneChanged(s, ReceiveStep(s, id).value, id);
  }

  lemma DropChanges(s: State, id: StreamId)
    requires KeysOk(s) && DropStep(s, id).Some?
    ensures var t := DropStep(s, id).value;
            OnlyChanges(s, t, id) && Of(t, id) == Of(s, id).(c := s.channels[id].(closed := true))
  {
  }

  lemma DropKeeps(s: State, id: StreamId)
    requires Inv(s) && DropStep(s, id).Some?
    ensures Inv(DropStep(s, id).value)
  {
    DropChanges(s, id);
    SameItemsSound(Of(s, id), s.channels[id].(closed := true));
    OneChanged(s, DropStep(s, id).value, id);
  }

  lemma UndoChanges(s: State, id: StreamId)
    requires KeysOk(s) && UndoStep(s, id).Some?
    ensures var t := UndoStep(s, id).value;
            && OnlyChanges(s, t, id)
            && Of(t, id) == Of(s, id).(registered := false, c := s.channels[id].(closed := true))
  {
  }

  lemma UndoKeeps(s: State, id: StreamId)
    requires Inv(s) && UndoStep(s, id).Some?
    ensures Inv(UndoStep(s, id).value)
  {
    UndoChanges(s, id);
    RemovedSound(Of(s, id));
    SameItemsSound(Of(s, id).(registered := false), s.channels[id].(closed := true));
    OneChanged(s, UndoStep(s, id).value, id);
  }

  /** The steps that only unregister streams and record who still owes them a fault. */
  predicate Unregisters(a: Action) {
    a.PushEvicted? || a.CloseLocked? || a.CloseAgentLocked? || a.AbortLocked? || a.OpenOffered?
  }

  lemma RemovalKeeps(s: State, a: Action)
    requires Inv(s) && Step(s, a).Some? && Unregisters(a)
    ensures Inv(Step(s, a).value)
  {
    RemovalKeys(s, a);
    var t := Step(s, a).value;
    forall k | k in t.channels
      ensures Sound(Of(t, k))
    {
      RemovalViews(s, a, k);
      assert Sound(Of(s, k));
      RemovedSound(Of(s, k));
    }
  }

  lemma RemovalKeys(s: State, a: Action)
    requires KeysOk(s) && Step(s, a).Some? && Unregisters(a)
    ensures KeysOk(Step(s, a).value) && Step(s, a).value.channels == s.channels
  {
  }

  lemma RemovalViews(s: State, a: Action, k: StreamId)
    requires KeysOk(s) && Step(s, a).Some? && Unregisters(a) && KeysOk(Step(s, a).value) && k in s.channels
    requires Step(s, a).value.channels == s.channels
    ensures var v, w := Of(s, k), Of(Step(s, a).value, k);
            || w == v || w == v.(registered := false)
            || (v.registered && w == v.(registered := false, closing := true))
            || (v.p.Evicting? && w == v.(registered := false, p := Idle))
  {
  }

  lemma StepKeeps(s: State, a: Action)
    requires Inv(s) && Step(s, a).Some?
    ensures Inv(Step(s, a).value)
  {
    match a
    case OpenLocked(handle, id) => OpenKeeps(s, handle, id);
    case OpenUndone(id) => UndoKeeps(s, id);
    case PushLookup(agent, id, chunk) => LookupKeeps(s, agent, id, chunk);
    case PushSent(id) => SendKeeps(s, id);
    case FaultSent(id) => FaultKeeps(s, id);
    case Received(id) => ReceiveKeeps(s, id);
    case Dropped(id) => DropKeeps(s, id);
    case _ => RemovalKeeps(s, a);
  }

  lemma {:induction false} RunKeeps(actions: seq<Action>)
    requires Run(actions).Some?
    ensures Inv(Run(actions).value)
  {
    if actions != [] {
      RunKeeps(actions[..|actions| - 1]);
      StepKeeps(Run(actions[..|actions| - 1]).value, actions[|actions| - 1]);
    }
  }
}
