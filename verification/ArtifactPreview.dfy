/**
 The metadata preview of frontend/app/use-dispatch-artifact.ts: selections start requests,
 responses arrive in any order, and a request id tells whether a response is stale.
*/
module ArtifactPreview {
  import opened Basics

  const MAX_ARTIFACT_BYTES := 268435456

  /** A picked file, by identity. */
  datatype File = File(id: nat, size: nat)

  type Metadata = string

  /** What the form dispatches: nothing, the artifact of a source job, or a picked file. */
  datatype Artifact = NoArtifact | OfSourceJob | Ready(file: File) | TooLarge(file: File)

  datatype Preview = Idle | Loading | PreviewReady(metadata: Metadata) | Unavailable | Error

  /** How far a request has come: awaiting the response, or awaiting its body. */
  datatype Phase = Fetching | Reading

  datatype Request = Request(file: File, phase: Phase)

  /**
   `requestRef` is the newest request id, `pending` the requests whose continuation has
   still to run. `previewOf` records what a ready preview was made from.
  */
  datatype State = State(
    requestRef: nat,
    artifact: Artifact,
    preview: Preview,
    previewOf: Option<Artifact>,
    pending: map<nat, Request>)

  /** A source job and, if its artifact has any, the artifact's metadata. */
  datatype SourceJob = SourceJob(metadata: Option<Metadata>)

  /** The hook's first state: `sourceArtifact` and `sourceMetadataPreview`. */
  function Initial(source: Option<SourceJob>): State {
    match source
    case None => State(0, NoArtifact, Idle, None, map[])
    case Some(job) =>
      match job.metadata
      case None => State(0, OfSourceJob, Unavailable, None, map[])
      case Some(metadata) => State(0, OfSourceJob, PreviewReady(metadata), Some(OfSourceJob), map[])
  }

  datatype Response = NotOk | Threw | BodyFollows

  datatype Body = Decoded(metadata: Option<Metadata>) | BodyThrew

  datatype Event =
    | Selected(file: Option<File>, tenant: bool)
    | Responded(id: nat, response: Response)
    | BodyRead(id: nat, body: Body)

  function Settle(s: State, preview: Preview): State {
    s.(preview := preview, previewOf := None)
  }

  /** `previewArtifact` up to its first await. */
  function StartPreview(s: State, file: File, tenant: bool): State {
    if !tenant then Settle(s, Idle)
    else
      var id := s.requestRef + 1;
      Settle(s, Loading).(requestRef := id, pending := s.pending[id := Request(file, Fetching)])
  }

  /** `selectArtifact`. */
  function Select(s: State, file: Option<File>, tenant: bool): State {
    match file
    case None => Settle(s, Idle).(requestRef := s.requestRef + 1, artifact := NoArtifact)
    case Some(f) =>
      if f.size > MAX_ARTIFACT_BYTES then
        Settle(s, Idle).(requestRef := s.requestRef + 1, artifact := TooLarge(f))
      else StartPreview(s.(artifact := Ready(f)), f, tenant)
  }

  /** A continuation ends: without effect when stale, else by settling the preview. */
  function Finish(s: State, id: nat, preview: Preview): State {
    var done := s.(pending := s.pending - {id});
    if id != s.requestRef then done else Settle(done, preview)
  }

  function Step(s: State, event: Event): Option<State> {
    match event
    case Selected(file, tenant) => Some(Select(s, file, tenant))
    case Responded(id, response) =>
      if id !in s.pending || !s.pending[id].phase.Fetching? then None
      else if response.BodyFollows? && id == s.requestRef then
        Some(s.(pending := s.pending[id := s.pending[id].(phase := Reading)]))
      else Some(Finish(s, id, Error))
    case BodyRead(id, body) =>
      if id !in s.pending || !s.pending[id].phase.Reading? then None
      else if body.BodyThrew? then Some(Finish(s, id, Error))
      else if id != s.requestRef || body.metadata.None? then Some(Finish(s, id, Unavailable))
      else Some(Finish(s, id, PreviewReady(body.metadata.value)).(previewOf := Some(Ready(s.pending[id].file))))
  }

  function Run(source: Option<SourceJob>, events: seq<Event>): Option<State> {
    if events == [] then Some(Initial(source))
    else
      match Run(source, events[..|events| - 1])
      case None => None
      case Some(s) => Step(s, events[|events| - 1])
  }

  // ----- The hook's variables, updated in place -----

  class Hook {
    var requestRef: nat
    var artifact: Artifact
    var preview: Preview
    ghost var previewOf: Option<Artifact>
    ghost var pending: map<nat, Request>

    ghost function Now(): State
      reads this
    {
      State(requestRef, artifact, preview, previewOf, pending)
    }

    constructor (source: Option<SourceJob>)
      ensures Now() == Initial(source)
    {
      requestRef, pending, previewOf := 0, map[], None;
      match source {
        case None =>
          artifact, preview := NoArtifact, Idle;
        case Some(job) =>
          artifact := OfSourceJob;
          if job.metadata.Some? {
            preview, previewOf := PreviewReady(job.metadata.value), Some(OfSourceJob);
          } else {
            preview := Unavailable;
          }
      }
    }

    /** `selectArtifact` with `previewArtifact` up to its fetch; `request` is the id it sent, if any. */
    method SelectArtifact(file: Option<File>, tenant: bool) returns (request: Option<nat>)
      modifies this
      ensures Now() == Step(old(Now()), Selected(file, tenant)).value
      ensures request.Some? <==> tenant && file.Some? && file.value.size <= MAX_ARTIFACT_BYTES
      ensures request.Some? ==> request.value == requestRef && requestRef in pending
    {
      previewOf := None;
      if file.None? || file.value.size > MAX_ARTIFACT_BYTES {
        requestRef := requestRef + 1;
        artifact := if file.None? then NoArtifact else TooLarge(file.value);
        preview := Idle;
        return None;
      }
      artifact := Ready(file.value);
      if !tenant {
        preview := Idle;
        return None;
      }
      var requestId := requestRef + 1;
      requestRef := requestId;
      preview := Loading;
      pending := pending[requestId := Request(file.value, Fetching)];
      return Some(requestId);
    }

    /** The continuation after the fetch: the id it captured decides whether it is stale. */
    method OnResponse(requestId: nat, response: Response)
      requires requestId in pending && pending[requestId].phase.Fetching?
      modifies this
      ensures Now() == Step(old(Now()), Responded(requestId, response)).value
    {
      if response.BodyFollows? && requestId == requestRef {
        pending := pending[requestId := pending[requestId].(phase := Reading)];
        return;
      }
      pending := pending - {requestId};
      if requestId == requestRef {
        preview, previewOf := Error, None;
      }
    }

    /** The continuation after the body. */
    method OnBody(requestId: nat, body: Body)
      requires requestId in pending && pending[requestId].phase.Reading?
      modifies this
      ensures Now() == Step(old(Now()), BodyRead(requestId, body)).value
    {
      ghost var file := pending[requestId].file;
      pending := pending - {requestId};
      if requestId != requestRef {
        return;
      }
      previewOf := None;
      match body {
        case BodyThrew =>
          preview := Error;
        case Decoded(metadata) =>
          if metadata.Some? {
            preview, previewOf := PreviewReady(metadata.value), Some(Ready(file));
          } else {
            preview := Unavailable;
          }
      }
    }
  }

  // ----- The invariant -----

  predicate NewestOutstanding(s: State) {
    s.requestRef in s.pending
  }

  /** What the form shows is about the artifact it shows. */
  ghost predicate Inv(s: State) {
    && (forall id | id in s.pending :: id <= s.requestRef)
    && (s.preview.Loading? <==> NewestOutstanding(s))
    && (NewestOutstanding(s) ==> s.artifact == Ready(s.pending[s.requestRef].file))
    && (s.preview.PreviewReady? <==> s.previewOf.Some?)
    && (s.previewOf.Some? ==> s.artifact == s.previewOf.value)
  }

  /** A file is picked without a tenant while the newest request is still outstanding. */
  predicate LosesTrack(s: State, event: Event) {
    && event.Selected? && event.file.Some? && event.file.value.size <= MAX_ARTIFACT_BYTES && !event.tenant
    && NewestOutstanding(s)
  }

  /**
   Exactly one kind of step breaks the invariant: picking a file without a tenant does not
   advance the request id, so an outstanding newest request stays current.
  */
  lemma StepKeepsExactly(s: State, event: Event)
    requires Inv(s) && Step(s, event).Some?
    ensures Inv(Step(s, event).value) <==> !LosesTrack(s, event)
  {
  }

  /** The invariant held after every step of the run. */
  ghost predicate AlwaysInv(source: Option<SourceJob>, events: seq<Event>) {
    && Run(source, events).Some? && Inv(Run(source, events).value)
    && (events != [] ==> AlwaysInv(source, events[..|events| - 1]))
  }

  /** No step of the run lost track. */
  ghost predicate NeverLosesTrack(source: Option<SourceJob>, events: seq<Event>) {
    events != [] ==>
      var before := events[..|events| - 1];
      && NeverLosesTrack(source, before)
      && (Run(source, before).Some? ==> !LosesTrack(Run(source, before).value, events[|events| - 1]))
  }

  /** Whatever the tenant does: a run keeps the invariant throughout exactly when no step loses track. */
  lemma {:induction false} RunKeepsExactly(source: Option<SourceJob>, events: seq<Event>)
    requires Run(source, events).Some?
    ensures AlwaysInv(source, events) <==> NeverLosesTrack(source, events)
  {
    if events != [] {
      var before, last := events[..|events| - 1], events[|events| - 1];
      RunKeepsExactly(source, before);
      if AlwaysInv(source, before) {
        StepKeepsExactly(Run(source, before).value, last);
      }
    }
  }

  /** The tenant never changes during the run. */
  predicate FixedTenant(events: seq<Event>, tenant: bool) {
    forall i | 0 <= i < |events| && events[i].Selected? :: events[i].tenant == tenant
  }

  lemma {:induction false} RunKeeps(source: Option<SourceJob>, events: seq<Event>, tenant: bool)
    requires Run(source, events).Some? && FixedTenant(events, tenant)
    ensures Inv(Run(source, events).value)
    ensures !tenant ==> Run(source, events).value.pending == map[]
  {
    if events != [] {
      var before, last := events[..|events| - 1], events[|events| - 1];
      RunKeeps(source, before, tenant);
      StepKeepsExactly(Run(source, before).value, last);
      assert last.Selected? ==> last.tenant == tenant;
    }
  }

  /**
   With a fixed tenant, in every order of picks and responses: a ready preview belongs to
   the artifact now selected, and the form says loading exactly while the newest request
   is outstanding.
  */
  lemma PreviewMatchesSelection(source: Option<SourceJob>, events: seq<Event>, tenant: bool)
    requires Run(source, events).Some? && FixedTenant(events, tenant)
    ensures var s := Run(source, events).value;
            && (s.preview.PreviewReady? ==> s.previewOf == Some(s.artifact))
            && (s.preview.Loading? <==> NewestOutstanding(s))
  {
    RunKeeps(source, events, tenant);
  }

  lemma RunOneMore(source: Option<SourceJob>, events: seq<Event>, event: Event)
    requires Run(source, events).Some?
    ensures Run(source, events + [event]) == Step(Run(source, events).value, event)
  {
    assert (events + [event])[..|events + [event]| - 1] == events;
  }

  /** A pick replaces the artifact at once and asks for its preview, if it is acceptable and there is a tenant. */
  lemma PickTakesEffect(source: Option<SourceJob>, events: seq<Event>, file: Option<File>, tenant: bool)
    requires Run(source, events).Some?
    ensures Run(source, events + [Selected(file, tenant)]).Some?
    ensures var t := Run(source, events + [Selected(file, tenant)]).value;
            match file
            case None => t.artifact == NoArtifact && t.preview == Idle
            case Some(f) =>
              if f.size > 256 * 1024 * 1024 then t.artifact == TooLarge(f) && t.preview == Idle
              else
                && t.artifact == Ready(f)
                && t.preview == (if tenant then Loading else Idle)
                && (tenant ==> t.requestRef in t.pending && t.pending[t.requestRef].file == f)
  {
    RunOneMore(source, events, Selected(file, tenant));
  }

  /** A continuation of an older request changes nothing that is shown. */
  lemma StaleChangesNothing(source: Option<SourceJob>, events: seq<Event>, event: Event)
    requires Run(source, events).Some? && !event.Selected? && event.id != Run(source, events).value.requestRef
    requires Run(source, events + [event]).Some?
    ensures var s, t := Run(source, events).value, Run(source, events + [event]).value;
            t.artifact == s.artifact && t.preview == s.preview && t.requestRef == s.requestRef
  {
    RunOneMore(source, events, event);
  }

  /** The newest request settles the preview: its metadata, none, or an error. */
  lemma NewestSettles(source: Option<SourceJob>, events: seq<Event>, event: Event)
    requires Run(source, events).Some? && !event.Selected? && event.id == Run(source, events).value.requestRef
    requires Run(source, events + [event]).Some?
    ensures var t := Run(source, events + [event]).value;
            match event
            case Responded(id, response) =>
              if response == BodyFollows then id in t.pending && t.pending[id].phase == Reading else t.preview == Error
            case BodyRead(_, BodyThrew) => t.preview == Error
            case BodyRead(_, Decoded(None)) => t.preview == Unavailable
            case BodyRead(_, Decoded(Some(metadata))) => t.preview == PreviewReady(metadata)
            case Selected(_, _) => true
  {
    RunOneMore(source, events, event);
  }

  /** Pick A with a tenant, pick B without one, then A's response. */
  function LosingRun(a: File, b: File, metadata: Metadata): seq<Event> {
    [Selected(Some(a), true), Selected(Some(b), false), Responded(1, BodyFollows),
     BodyRead(1, Decoded(Some(metadata)))]
  }

  /** For any two acceptable files, that run ends showing A's metadata for B. */
  lemma TenantLossShowsWrongFile(source: Option<SourceJob>, a: File, b: File, metadata: Metadata)
    requires a.size <= MAX_ARTIFACT_BYTES && b.size <= MAX_ARTIFACT_BYTES
    ensures var s := Run(source, LosingRun(a, b, metadata));
            s.Some? && s.value.artifact == Ready(b) && s.value.preview == PreviewReady(metadata)
            && s.value.previewOf == Some(Ready(a))
  {
    var events := LosingRun(a, b, metadata);
    assert events[..3][..2] == events[..2] && events[..2][..1] == events[..1] && events[..1][..0] == [];
    assert Run(source, events[..1]) == Step(Initial(source), events[0]);
    assert Run(source, events[..2]) == Step(Run(source, events[..1]).value, events[1]);
    assert Run(source, events[..3]) == Step(Run(source, events[..2]).value, events[2]);
  }
}
