# Pandar verification models

Dafny models of the parts of Pandar (a print-farm hub, its printer agents and its web
dashboard) where correctness is hardest to see from one function at a time, with proofs
about all inputs and all runs. `dafny verify dfyconfig.toml` checks the whole project.

| component | files |
|---|---|
| Material auto-mapping | `MaterialMapping`, `AutoMap`, `AutoMapTheorems`, `MappingPayload`, `PrinterSlots`, `DispatchMapping` |
| Hub payload validator | `HubContract` |
| Agent command stream and camera tasks | `AgentStream`, `AgentStreamTheorems`, `AgentStreamResults`, `AgentCommands`, `CameraPanics`, `CameraTable` |
| Hub camera session registry | `CameraSessions`, `CameraSessionTheorems`, `CameraSessionEffects`, `CameraRegistry` |
| Local camera source | `JpegHeader`, `FrameReader`, `TunnelTerminal` |
| Cleanup SQL, device features, dialogs | `PostgresSql`, `Decimal`, `DeviceFeatures`, `MismatchDialog`, `ArtifactPreview` |

How the models are built:

- **Protocols** (command stream, camera registry, terminal latch) are step systems: a state,
  an action, and `Step(s, a)`, which is `None` when the action is not enabled. `Run(actions)`
  is the state after a whole run, so a theorem about `Run(actions)` for every `actions` is a
  theorem about every interleaving. Each `.await`, lock section and unlocked channel send is
  a step boundary. Classes (`CameraTable.Table`, `CameraRegistry.Registry`,
  `TunnelTerminal.Shared`, `MismatchDialog.Coordinator`, `ArtifactPreview.Hook`) hold the
  same state in mutable fields, and most of their methods are proved to take exactly one
  such step. `Shared.RecordFailure` takes two, its check and its latch, with any steps of
  other threads in between, which are inputs; `Shared.PendingCode` only reads, in two lock
  sections with other threads in between. `Table.RetainUnfinished` and `Table.Teardown` are
  stated by their effect instead: what stays in the table, and the joins and the outcome.
- **Algorithms with loops** (greedy pass, payload arrays, JPEG scanner, frame reader, SQL
  rewriter, filament indices) are methods proved against specification functions; the
  theorems are about those functions.
- **Meanings that code and specification share** (wire types, marker sets, whitespace, tray
  numbers, errors, compatibility) are also stated on the bare values, apart from the function
  that computes them, so that no theorem rests on a definition alone.
- **What the code calls but does not define** is a parameter: colour distance, type-name
  normalisation, payload colour and the locale order of slot keys (`MaterialMapping.Palette`,
  where the order is any total preorder), `parseInt`, and tool-head parsing.

Findings, kept as the code has them:

- The validator's cycle guard is not reset on the way down, so on a *cyclic* schema set
  everything below the first repetition goes unchecked
  (`HubContract.CyclicSetAcceptsNonconforming`). On every schema set an accepted value
  conforms exactly when the guard hits its acceptance rests on do
  (`HubContract.AcceptedConformsExactly`), and acceptance is conformance wherever no name
  repeats while the value is walked (`HubContract.UnrepeatedConforms`). Acyclic references,
  as in the contract shipped with the repository, are sufficient for that and not necessary:
  a schema that only refers to itself does no harm (`HubContract.SelfReferenceAgrees`).
- The metadata preview can show one file's metadata for another when the tenant goes away
  between two picks, because that path does not advance the request id
  (`ArtifactPreview.TenantLossShowsWrongFile`); `ArtifactPreview.RunKeepsExactly` says
  exactly which runs are affected.
- A camera task that panics makes the stream's result an error
  (`CameraPanics.PanicSurfacesUnlessForgotten`) unless a later open drops its finished entry
  first, whose result nobody then reads; a run without any error that does so is
  `CameraPanics.RetainForgetsPanic`.
- `postgres_sql` keeps the meaning of a text, read as plain substitution of the bound values,
  exactly when no `?` or `$` is directly followed by a digit
  (`PostgresSql.RewritePreservesMeaning`). A `?` inside a quoted literal counts as a
  placeholder in this reading, and the code renumbers it too.
- Two slots with the same key can make the payload drop an automatic choice, for instance
  when a printer reports one tray twice (`PrinterSlots.RepeatedTrayDropsChoice`). A choice
  survives exactly when its key is not empty and the last slot carrying it is eligible
  (`MappingPayload.AutomaticChoiceKeptExactly`); `PrinterSlots.PrinterSlotKeysAreDistinct`
  gives the printer reports whose keys all differ.

## Model

| member | source | states |
|---|---|---|
| `HubContract.LargerGuardAcceptsMore` | frontend/app/hub-contract.ts:43-141 | Enlarging `resolving` can only turn a rejection into an acceptance, through `oneOf`, type lists, references, items and properties; the recursion it follows is the validator's own, which terminates on every schema set by unresolved names, then schema |
| `HubContract.ConformingIsAccepted` | frontend/app/hub-contract.ts:43-141 | On every schema set, cyclic or not, and under every guard set, a value that conforms declaratively is accepted |
| `HubContract.AcceptedConformsExactly` | frontend/app/hub-contract.ts:74-80 | On every schema set, under every guard set: an accepted value conforms exactly when, at each repeated name its acceptance rests on, the value there conforms to the named schema |
| `HubContract.UnrepeatedConforms` | frontend/app/hub-contract.ts:74-80 | On every schema set, cyclic ones included: where no name repeats while the value is walked, acceptance is exactly conformance |
| `HubContract.RankedNeverRepeats` | frontend/app/hub-contract.ts:74-80 | Where references strictly descend in rank no name can repeat, whatever the value |
| `HubContract.AcceptedConforms` | frontend/app/hub-contract.ts:74-80 | Where references strictly descend in rank and the guard holds only higher names, an accepted value conforms; derived from the two rows above |
| `HubContract.DecodeIsConformance` | frontend/app/hub-contract.ts:28-34 | For every entry schema with acyclic reachable references, a payload decodes exactly when it conforms, and decodes to itself |
| `HubContract.PlainAcceptsIsValidate` | frontend/app/hub-contract.ts:81-141 | Without `oneOf`, `$ref` and type lists, acceptance is the conjunction of enum, wire type, all items, required, declared and closed properties |
| `HubContract.SomeTypeIsExists` | frontend/app/hub-contract.ts:50-61 | A type list accepts exactly when one of its types does |
| `HubContract.SomeCandidateIsExists` | frontend/app/hub-contract.ts:62-73 | `oneOf` accepts exactly when at least one candidate does |
| `HubContract.RejectionIsExplained` | frontend/app/hub-contract.ts:43-149 | Every rejection carries a path that leads, through the schemas in force on the way, to a fault of the kind it names: a missing required member, an undeclared member of a closed object, an unknown schema name, no accepting type or candidate, or a value outside the enumeration or wire type |
| `HubContract.ExplainedIsRejected` | frontend/app/hub-contract.ts:43-149 | Conversely, whenever some path leads to such a fault the value is rejected |
| `HubContract.CyclicSetAcceptsNonconforming` | frontend/app/hub-contract.ts:74-80 | For a self-referring tree schema, chains of every depth fail to conform, yet every chain of depth two or more decodes |
| `HubContract.SelfReferenceAgrees` | frontend/app/hub-contract.ts:74-80 | A schema that only refers to itself decodes every value, and every value conforms to it: a cycle alone does no harm |
| `HubContract.TypeAccepts` | frontend/app/hub-contract.ts:84-141 | What each type name accepts, on the value: null, texts, the two booleans, finite numbers, numbers without a fraction, arrays, objects; any other name accepts nothing |
| `HubContract.EnumAccepts` | frontend/app/hub-contract.ts:81-83 | Exactly the listed values that are not compound |
| `HubContract.RefAccepts` | frontend/app/hub-contract.ts:74-80 | A reference asks what the schema named behind its last slash asks, for any path in front; a name being resolved asks nothing, an unknown one rejects |
| `HubContract.ItemsAccept` | frontend/app/hub-contract.ts:107-112 | An array is accepted exactly when every item is |
| `HubContract.ObjectAccepts` | frontend/app/hub-contract.ts:113-138 | On the fields themselves: every required name occurs, every declared field that occurs is accepted, and a closed object has no other field |
| `MaterialMapping.Ineligibility` | frontend/app/dispatch-material-auto-map.ts:16-60 | A slot is eligible exactly when it is not empty, is no AMS slot with AMS off or of a known other type, and can reach the filament's nozzle; each of the reasons empty, AMS off and type mismatch exactly in its case |
| `MaterialMapping.RouteIneligibility` | frontend/app/dispatch-material-auto-map.ts:25-50 | No routing objection exactly when a switch feeds the routed AMS slot, or the slot's side is the nozzle's, or no route is known or required anywhere; switch and wrong-nozzle objections exactly in their cases |
| `MaterialMapping.ProjectFilamentsForPlate` | frontend/app/dispatch-material-mapping.ts:63-94 | The result is, in plate order, exactly the used filaments that are first to ask for their index and whose index is below 32; indices are distinct; an unknown plate gives none |
| `MaterialMapping.KeptExactly` | frontend/app/dispatch-material-mapping.ts:72-92 | On the plate's own fields: a filament is kept exactly when it is not used up to zero grams and zero meters, is first to ask for its index (its positive id less one, else its position), and that is below 32; its preset, type, colour and nozzle are the plate's |
| `MaterialMapping.FindPlateIsFirst` | frontend/app/dispatch-material-mapping.ts:67-70 | The plate is the first with the id, and there is none exactly when no plate has it |
| `MaterialMapping.SwitchInstalledIsFirst` | frontend/app/dispatch-material-auto-map.ts:25-27 | The switch state is the first known one among the slots |
| `AutoMap.DistanceIsLexicographic` | frontend/app/dispatch-material-auto-map.ts:205-221 | The weights make the distance number rank pairings exactly by AMS before external, known colour, same preset, then colour nearness, for colour distances below 1000 |
| `AutoMap.CompatibleMeans` | frontend/app/dispatch-material-auto-map.ts:196-204 | A slot pairs with a filament exactly when it is not empty and can reach the nozzle, and the types agree with AMS on, or it is external with AMS off |
| `AutoMap.SortSorts` | frontend/app/dispatch-material-auto-map.ts:225-230 | The pair list is sorted by distance, index and key for every total preorder on keys |
| `AutoMap.SortPermutes` | frontend/app/dispatch-material-auto-map.ts:225-230 | Sorting keeps every pair with its multiplicity |
| `AutoMap.SortIsStable` | frontend/app/dispatch-material-auto-map.ts:225-230 | Pairs that tie keep the order in which filaments and slots list them |
| `AutoMap.CompatiblePairsAreCompatible` | frontend/app/dispatch-material-auto-map.ts:190-231 | A pair is listed exactly when some filament and slot are compatible and give that pair |
| `AutoMap.TakenIsUnused` | frontend/app/dispatch-material-auto-map.ts:75-87 | The two shrinking sets decide exactly whether no earlier taken pair conflicts |
| `AutoMap.GreedyPass` | frontend/app/dispatch-material-auto-map.ts:67-87 | The loop computes the greedy matching, what it leaves unmatched, and each filament's first pair |
| `AutoMap.ShareFirstPairs` | frontend/app/dispatch-material-auto-map.ts:89-92 | The fallback adds exactly the unmatched filaments that have a pair, each with its first pair's slot, and changes no match |
| `AutoMap.AutoMapSlotSelections` | frontend/app/dispatch-material-auto-map.ts:62-95 | The selections are the greedy matching plus the fallback over the compatible pairs |
| `AutoMapTheorems.GreedyIsStable` | frontend/app/dispatch-material-auto-map.ts:74-87 | The taken pairs form a matching, and every other pair loses its filament or slot to an earlier taken pair |
| `AutoMapTheorems.StableIsUnique` | frontend/app/dispatch-material-auto-map.ts:74-87 | No other choice of pairs has that property, so the matching is fully determined |
| `AutoMapTheorems.PassedOverWereTaken` | frontend/app/dispatch-material-auto-map.ts:74-87 | Every pair of a filament before its taken one has its slot taken by a still earlier pair of another filament |
| `AutoMapTheorems.NoBlockingPair` | frontend/app/dispatch-material-auto-map.ts:62-95 | Every compatible pair is matched or meets a matched pair that sorts no later |
| `AutoMapTheorems.NoBetterPairing` | frontend/app/dispatch-material-auto-map.ts:62-95 | On filaments and slots: whenever two are compatible, the filament or the slot is matched in a compatible pairing that comes no later by AMS, known colour, preset and nearness, then index, then key |
| `AutoMapTheorems.TakenPairBlocks` | frontend/app/dispatch-material-auto-map.ts:74-87 | The matching is maximal in the compatibility graph |
| `AutoMapTheorems.GreedyIsHalfOptimal` | frontend/app/dispatch-material-auto-map.ts:62-95 | Any matching of the compatibility graph is at most twice as large |
| `AutoMapTheorems.GreedyIsInjective` | frontend/app/dispatch-material-auto-map.ts:79-86 | No two matched filaments share a slot |
| `AutoMapTheorems.SharingOnlyWhenAllTaken` | frontend/app/dispatch-material-auto-map.ts:89-92 | A filament shares a slot only when all its compatible slots went to others by earlier pairs, and then it shares its most preferred one |
| `AutoMapTheorems.SelectionIsCompatible` | frontend/app/dispatch-material-auto-map.ts:62-95 | A filament index is selected exactly when it has a compatible slot, and the selected key is one of a compatible slot |
| `MappingPayload.FillArrays` | frontend/app/dispatch-material-auto-map.ts:120-142 | Each position holds its selected slot when a filament of that index is eligible for it, else the unmapped markers |
| `MappingPayload.SizeMeansAllChosen` | frontend/app/dispatch-material-auto-map.ts:176-176 | The size comparison is true exactly when indices are distinct and every filament has an eligible selection |
| `MappingPayload.BuildInfo` | frontend/app/dispatch-material-auto-map.ts:144-165 | The info array exists exactly when every position has a filament with a known nozzle, and then describes each position |
| `MappingPayload.InfoShowsOwnFilament` | frontend/app/dispatch-material-auto-map.ts:144-165 | The third array exists exactly when every position is some filament's index and the last filament of each index has a known nozzle; each of those is shown at its own index with the slot chosen there |
| `MappingPayload.InfoShowsEveryFilament` | frontend/app/dispatch-material-auto-map.ts:144-165 | With distinct indices every filament is shown at its own index: type, preset, nozzle, colour, tray and target colour |
| `MappingPayload.FilamentByIndexIsLast` | frontend/app/dispatch-material-auto-map.ts:144-149 | The lookup finds the last filament of an index, and none exactly when there is none |
| `MappingPayload.BuildFlags` | frontend/app/dispatch-material-auto-map.ts:167-179 | The mismatch flag reports an external slot of a known other type; the AMS flag reports any AMS slot |
| `MappingPayload.MaterialMappingPayload` | frontend/app/dispatch-material-auto-map.ts:107-188 | For every selection map the payload describes it position by position, with all flags |
| `MappingPayload.PayloadFitsHub` | crates/pandar-hub/src/material_mapping.rs:9-11 | All arrays have one length, at most 32 for plate indices, which the hub accepts |
| `MappingPayload.MappedPositionsAreEligible` | frontend/app/dispatch-material-auto-map.ts:132-142 | A mapped position holds the selected slot of the printer, eligible for a filament of that index, and never an AMS slot with AMS off |
| `MappingPayload.MappedIsRecoverable` | frontend/app/dispatch-material-auto-map.ts:124-142 | Mapped positions are exactly those that differ from (255, 255) in the second array when no slot has those ids |
| `MappingPayload.AutomaticChoiceIsKept` | frontend/app/dispatch-material-auto-map.ts:132-142 | With distinct keys and indices no automatic choice is dropped by the re-check |
| `MappingPayload.AutomaticPayloadValidity` | frontend/app/dispatch-material-auto-map.ts:62-188 | The payload of the automatic selection is valid exactly when every filament has a compatible slot |
| `MappingPayload.AutomaticChoiceKeptExactly` | frontend/app/dispatch-material-auto-map.ts:129-135 | For any slot keys, a filament with distinct index keeps its automatic choice exactly when it has a compatible slot and its selected key is not empty and last carried by an eligible slot |
| `MappingPayload.AutomaticValidityExactly` | frontend/app/dispatch-material-auto-map.ts:129-176 | For any indices and slot keys, the automatic payload is valid exactly when indices differ and every filament keeps its choice in that sense |
| `MappingPayload.AutoMapProjectFilaments` | frontend/app/dispatch-material-auto-map.ts:97-105 | Each position holds the tray of its automatic choice or the marker; with distinct keys and indices the choice exists exactly for filaments with a compatible slot |
| `MappingPayload.DuplicateKeyDropsChoice` | frontend/app/dispatch-material-auto-map.ts:129-135 | A failing family: a compatible slot followed by an ineligible one with the same key is selected and then dropped |
| `PrinterSlots.RepeatedTrayDropsChoice` | frontend/app/dispatch-material-mapping.ts:111-160 | The printer report behind that family: one unit listing a present tray twice, the second time absent, makes the payload drop the choice and be invalid although a compatible slot exists |
| `PrinterSlots.PrinterSlotKeysAreDistinct` | frontend/app/dispatch-material-mapping.ts:96-196 | Unit ids without colons, and unit, tray and spool ids that do not repeat, give distinct non-empty slot keys |
| `PrinterSlots.SlotsShowReport` | frontend/app/dispatch-material-mapping.ts:96-196 | The slots are exactly those of the reported trays and spools with numeric ids, each with its key, ids, tray number (reported, else four per unit below 64, one per unit from 128 to 135), contents, side (reported, else by convention) and routing |
| `DispatchMapping.InitialMapping` | frontend/app/use-dispatch-material-mapping.ts:26-75 | From plate metadata and printer report to payload: the filaments are the plate's, the payload describes their automatic selection among the printer's slots, its length is one the hub accepts, and, when the report's ids do not repeat, it is valid exactly when every filament of the plate has a compatible slot |
| `PrinterSlots.AmsKeyInjective` | frontend/app/dispatch-material-mapping.ts:128-130 | For unit ids without colons an AMS key determines its unit and tray |
| `AgentStreamTheorems.NothingIsLost` | crates/pandar-agent/src/camera_control.rs:106-159 | In every run a camera task has ended or is in the table under its id; at most four table entries and four firmware tasks; a task starts only after all earlier ones of its stream ended |
| `AgentStreamTheorems.ReturnLeavesNothingRunning` | crates/pandar-agent/src/command_stream.rs:94-183 | On return, by any exit, worker, camera tasks and firmware tasks have ended and every firmware result was observed |
| `AgentStreamTheorems.ResultIsFirstFailure` | crates/pandar-agent/src/command_stream.rs:155-242 | The result is an error exactly when the loop or a non-cancelled join failed, and is the earliest such failure |
| `AgentStreamResults.LoopFailureIsResult` | crates/pandar-agent/src/command_stream.rs:94-153 | A run that leaves the loop by a failed read, a refused send, a stopped worker or a failed firmware join returns exactly that error, whatever teardown finds |
| `AgentStreamResults.ErrorHasCause` | crates/pandar-agent/src/command_stream.rs:94-242 | Every error result names something that happened: the action in the run, or the end of the worker, firmware or camera task with that cause |
| `AgentStreamResults.CleanRunSucceeds` | crates/pandar-agent/src/command_stream.rs:94-242 | A run in which nothing failed, only ended or was cancelled, returns without an error |
| `AgentStreamResults.HistoryIsTrue` | crates/pandar-agent/src/command_stream.rs:94-242 | Whatever the main task records as observed did happen |
| `AgentStreamResults.HandlesAreJoinedOnce` | crates/pandar-agent/src/command_stream.rs:136-212 | No task is joined twice; on return the worker and every firmware task have been joined exactly once |
| `AgentCommands.CommandsInOrder` | crates/pandar-agent/src/command_stream.rs:64-128 | In every run the worker begins the commands sent to it in order and without loss, and at most 32 wait |
| `AgentCommands.SendWaitsForRoom` | crates/pandar-agent/src/command_stream.rs:125-128 | A send completes exactly while the worker lives and fewer than 32 wait, and fails exactly when it has ended |
| `AgentCommands.FirmwareCommandsRun` | crates/pandar-agent/src/command_stream.rs:97-124 | While the loop runs every firmware command has its own task, except one that waits |
| `AgentCommands.FirmwareWaitsAtFour` | crates/pandar-agent/src/command_stream.rs:97-106 | It waits exactly when four tasks have not been joined |
| `AgentCommands.AbortsOnlyInTeardown` | crates/pandar-agent/src/command_stream.rs:94-166 | While the loop runs neither the worker nor any firmware task is told to abort |
| `AgentCommands.OpenDecides` | crates/pandar-agent/src/camera_control.rs:107-121 | An open forgets ended streams; a running task of its own is aborted and awaited; otherwise it goes ahead unless four others are running |
| `AgentCommands.CloseStopsTask` | crates/pandar-agent/src/camera_control.rs:133-149 | A close aborts the task of its stream, and nothing else, and awaits it; without an entry it does nothing |
| `AgentCommands.StopAwaitsEnd` | crates/pandar-agent/src/camera_control.rs:142-159 | The worker goes on exactly when the stopped task has ended, with the entry gone; a panic ends the worker with that cause |
| `AgentCommands.ResolveSpawnsTask` | crates/pandar-agent/src/camera_control.rs:120-131 | A resolved stream gets a new running task under its id at once |
| `AgentCommands.WorkerEndsThatWay` | crates/pandar-agent/src/command_stream.rs:69-90 | A failing command, a panic or a cancellation ends the worker that way for good |
| `AgentStreamTheorems.FirmwareFailureSurfaces` | crates/pandar-agent/src/command_stream.rs:223-231 | A failed or panicked firmware task always makes the result an error |
| `AgentStreamTheorems.WorkerFailureSurfaces` | crates/pandar-agent/src/command_stream.rs:136-180 | A failed or panicked worker always makes the result an error, seen by the loop or by teardown |
| `AgentStreamTheorems.CameraPanicSurfaces` | crates/pandar-agent/src/command_stream.rs:200-210 | Every task in the table when teardown comes to the cameras is joined with its own result before the return, in every continuation, and a panic makes the result an error |
| `CameraPanics.PanicSurfacesUnlessForgotten` | crates/pandar-agent/src/camera_control.rs:106-159 | In every run that returns, a panicked camera task makes the result an error, or an earlier open's retain dropped its finished entry |
| `CameraPanics.RunAccounts` | crates/pandar-agent/src/camera_control.rs:106-159 | At every point of every run a camera task is in the table, was joined with its own result, has made the worker fail, did not panic, or was dropped by a retain |
| `CameraPanics.RetainForgetsPanic` | crates/pandar-agent/src/camera_control.rs:108-108 | For any two stream ids some run drops a panicked task this way and returns without an error |
| `AgentStreamTheorems.LockedSectionKeeps` | crates/pandar-agent/src/camera_control.rs:106-153 | The locked part of a camera command keeps every invariant, limit included |
| `AgentStreamTheorems.AfterJoinKeeps` | crates/pandar-agent/src/camera_control.rs:142-159 | Removing an entry after its join keeps every invariant |
| `AgentStreamTheorems.SpawnCameraKeeps` | crates/pandar-agent/src/camera_control.rs:120-131 | Spawn and insert lose no running task and stay within the limit |
| `AgentStreamTheorems.LoopStepKeeps` | crates/pandar-agent/src/command_stream.rs:94-153 | Every arm of the select loop keeps every invariant |
| `AgentStreamTheorems.TeardownStepKeeps` | crates/pandar-agent/src/command_stream.rs:155-212 | Every teardown step keeps every invariant |
| `AgentStreamTheorems.StepKeeps` | crates/pandar-agent/src/command_stream.rs:49-183 | Every step of the system, with the worker cancelled or panicking at any await, keeps the invariant |
| `AgentStreamTheorems.TeardownCanAdvance` | crates/pandar-agent/src/command_stream.rs:155-212 | In every reachable teardown state a step is enabled that brings the return nearer: the lock is free and everything awaited was aborted |
| `AgentStreamTheorems.TeardownDescends` | crates/pandar-agent/src/command_stream.rs:155-212 | Each teardown step reaches a later phase or owes strictly fewer joins |
| `AgentStreamTheorems.TeardownFinishes` | crates/pandar-agent/src/command_stream.rs:155-212 | Every run that has left the loop has a continuation to the return, made only of teardown steps and of ends of tasks told to abort |
| `AgentStreamTheorems.FirstFailureIsFirst` | crates/pandar-agent/src/command_stream.rs:233-242 | The retained error is the failure of the earliest failing observation |
| `CameraTable.Table.RetainUnfinished` | crates/pandar-agent/src/camera_control.rs:108-108 | Exactly the entries of unfinished tasks stay |
| `CameraTable.Table.Handle` | crates/pandar-agent/src/camera_control.rs:106-141 | The locked section on the mutable table is the step system's, and says where the worker awaits next |
| `CameraTable.Table.Abort` | crates/pandar-agent/src/camera_control.rs:146-149 | Aborting marks the task and leaves its entry |
| `CameraTable.Table.FinishStop` | crates/pandar-agent/src/camera_control.rs:152-158 | After the join the entry goes and the result decides the worker's next state |
| `CameraTable.Table.Spawn` | crates/pandar-agent/src/camera_control.rs:122-131 | The new task is in the table as soon as it exists |
| `CameraTable.Table.Teardown` | crates/pandar-agent/src/command_stream.rs:185-212 | The loop empties the table, joins every entry once with its own result, leaves no task running and keeps the first error |
| `CameraSessionTheorems.DeliveryIsGapFree` | crates/pandar-hub/src/camera_sessions.rs:88-240 | Under every interleaving the delivered chunks are a prefix of those pushed; at most one fault, at most one chunk after it; the queue stays within 16 |
| `CameraSessionTheorems.RegisteredStreamIsComplete` | crates/pandar-hub/src/camera_sessions.rs:157-176 | While a stream is registered and no push is under way nothing pushed was lost |
| `CameraSessionTheorems.OneStreamPerPrinter` | crates/pandar-hub/src/camera_sessions.rs:99-123 | In every reachable state at most one stream is registered per agent and serial number |
| `CameraSessionTheorems.ReplacementIsAnnounced` | crates/pandar-hub/src/camera_sessions.rs:101-121 | A replaced stream is unregistered and, if its channel has room, gets the replacement fault as its last item |
| `CameraSessionTheorems.EndedIsFinal` | crates/pandar-hub/src/camera_sessions.rs:157-240 | A stream without registration and pending send never accepts another chunk |
| `CameraSessionTheorems.OverflowEndsStream` | crates/pandar-hub/src/camera_sessions.rs:165-175 | The eviction after a refused chunk ends the stream |
| `CameraSessionTheorems.FailedOpenIsUnregistered` | crates/pandar-hub/src/camera_sessions.rs:138-154 | The id of an open that returned an error is unregistered from then on |
| `CameraSessionEffects.RefusedOpenIsUndone` | crates/pandar-hub/src/camera_sessions.rs:138-154 | From a refused command on, in every run, the undo of that open is owed and can be taken, or the open has failed and is unregistered |
| `CameraSessionEffects.SentOpenNeverFails` | crates/pandar-hub/src/camera_sessions.rs:138-154 | An open whose command was sent never fails afterwards |
| `CameraSessionEffects.UndoUnregisters` | crates/pandar-hub/src/camera_sessions.rs:145-153 | The undo unregisters its own id and returns the error |
| `CameraSessionEffects.OpenRegisters` | crates/pandar-hub/src/camera_sessions.rs:99-123 | A fresh id is always registered for its printer with an empty channel |
| `CameraSessionEffects.OnlyConcernedChange` | crates/pandar-hub/src/camera_sessions.rs:88-240 | A step leaves every stream it does not concern as it was: an open reaches its own printer, a session end its agent, everything else one stream |
| `CameraSessionEffects.ChunkGetsThrough` | crates/pandar-hub/src/camera_sessions.rs:157-167 | A chunk of the owner becomes the next item while fewer than 16 are queued, and the stream stays registered |
| `CameraSessionEffects.ChunkWithoutRoomEvicts` | crates/pandar-hub/src/camera_sessions.rs:165-175 | Without room the chunk is dropped and the stream unregistered |
| `CameraSessionEffects.ReceiveDelivers` | crates/pandar-hub/src/camera_sessions.rs:157-176 | The viewer receives the oldest queued item and nothing else changes |
| `CameraSessionEffects.CloseEnds` | crates/pandar-hub/src/camera_sessions.rs:185-200 | The owner's close unregisters the stream, silently on success, else owing the fault with its message; any other close does nothing |
| `CameraSessionEffects.SuccessfulCloseIsSilent` | crates/pandar-hub/src/camera_sessions.rs:185-200 | After a successful close the viewer is never told of a fault, in any run |
| `CameraSessionEffects.FaultIsDelivered` | crates/pandar-hub/src/camera_sessions.rs:185-225 | An owed fault becomes the last item if there is room, and is owed no more |
| `CameraSessionEffects.FaultStaysOwed` | crates/pandar-hub/src/camera_sessions.rs:185-225 | An owed fault stays owed with its message until it is sent |
| `CameraSessionEffects.SessionEndEndsAll` | crates/pandar-hub/src/camera_sessions.rs:201-225 | Session end unregisters each of the agent's streams and owes each its fault |
| `CameraSessionEffects.DroppedIsFinal` | crates/pandar-hub/src/camera_sessions.rs:88-240 | Once the viewer has gone its stream accepts and delivers nothing more |
| `CameraSessionTheorems.OtherAgentsUntouched` | crates/pandar-hub/src/camera_sessions.rs:157-225 | A push, close, replacement or session end of one agent changes nothing of another agent's stream |
| `CameraSessions.StepKeeps` | crates/pandar-hub/src/camera_sessions.rs:88-240 | Every lock section and every unlocked send keeps the registry invariant |
| `CameraSessions.OpenKeeps` | crates/pandar-hub/src/camera_sessions.rs:99-123 | Replacing and registering keep each stream's order and the one-per-printer rule |
| `CameraSessions.SendKeeps` | crates/pandar-hub/src/camera_sessions.rs:165-167 | A chunk is accepted in order or its stream goes to eviction |
| `CameraRegistry.Registry.OpenSection` | crates/pandar-hub/src/camera_sessions.rs:99-123 | The lock section faults and removes exactly the streams of the same printer and registers the new one |
| `CameraRegistry.Registry.LookupSection` | crates/pandar-hub/src/camera_sessions.rs:157-164 | The first section of a push changes no table; the producer comes to hold its chunk exactly when the agent owns the stream |
| `CameraRegistry.Registry.EvictSection` | crates/pandar-hub/src/camera_sessions.rs:168-175 | The second section of a push removes its own agent's stream only |
| `CameraRegistry.Registry.CloseSection` | crates/pandar-hub/src/camera_sessions.rs:185-193 | Close removes the stream exactly when the agent owns it |
| `CameraRegistry.Registry.CloseAgentSection` | crates/pandar-hub/src/camera_sessions.rs:201-217 | Session end removes exactly the agent's streams |
| `JpegHeader.JpegDimensions` | crates/pandar-bambu-source/src/config.rs:33-69 | In bounds on every input, terminating by a strictly increasing offset, and equal to the grammar's scanner |
| `JpegHeader.ScanFrom` | crates/pandar-bambu-source/src/config.rs:37-68 | The outer loop, index by index |
| `JpegHeader.SkipFills` | crates/pandar-bambu-source/src/config.rs:43-45 | The inner loop stops behind exactly the fill bytes |
| `JpegHeader.HeaderGivesSize` | crates/pandar-bambu-source/src/config.rs:33-69 | SOI, any stray bytes, bare markers and sized non-SOF segments with fill bytes, then a frame header, give exactly that header's sizes when positive |
| `JpegHeader.DimensionsExactly` | crates/pandar-bambu-source/src/config.rs:33-69 | A size is reported exactly when the frame is such a header with those positive sizes, markers taken from the literal sets of ITU-T T.81 |
| `JpegHeader.MarkersAreTold` | crates/pandar-bambu-source/src/config.rs:48-58 | The scanner tells frame markers and bare markers apart exactly as table B.1 of ITU-T T.81 lists them |
| `FrameReader.Connection.ReadExact` | crates/pandar-bambu-source/src/reader.rs:30-34 | However reads are split, the buffer is filled in order, or an error exactly when too few bytes remain |
| `FrameReader.Connection.ReadFrameLength` | crates/pandar-bambu-source/src/reader.rs:50-58 | Four bytes, a clean end before the first, or an error |
| `FrameReader.Connection.ReadFrame` | crates/pandar-bambu-source/src/reader.rs:15-38 | One turn yields the stream's first frame and its dimensions, or the stream's end |
| `FrameReader.ReadFrames` | crates/pandar-bambu-source/src/reader.rs:13-48 | For every way the queue answers: while no offer meets a hang-up exactly the stream's frames are offered in order and its terminal results; the first hang-up ends as Eof with that frame; every frame offered is valid, so its size fits; the dimensions published are the last offered frame's |
| `FrameReader.BoundaryEndsAsEof` | crates/pandar-bambu-source/src/reader.rs:13-48 | Valid frames closed at a boundary decode to exactly those frames and Eof |
| `FrameReader.CutEndsAsFailure` | crates/pandar-bambu-source/src/reader.rs:13-48 | A cut inside a frame decodes to exactly the complete frames and a failure naming length or body |
| `FrameReader.BadLengthEndsReading` | crates/pandar-bambu-source/src/reader.rs:26-29 | A length of zero or above 10 MiB ends reading behind the frames before it, naming the length |
| `FrameReader.UnsizedFrameEndsReading` | crates/pandar-bambu-source/src/reader.rs:35-38 | So does a frame of acceptable length without dimensions, as an invalid JPEG |
| `FrameReader.DecodeEncoded` | crates/pandar-bambu-source/src/reader.rs:13-48 | Complete frames in front of any tail come out first, unchanged |
| `FrameReader.DecodedIsEncoded` | crates/pandar-bambu-source/src/reader.rs:26-38 | Every frame fits 10 MiB and a signed 32-bit size; a stream ends as Eof exactly when it is the encoding of its frames and the peer closed |
| `TunnelTerminal.TerminalIsFinal` | crates/pandar-bambu-source/src/tunnel.rs:237-262 | Once set, the terminal never changes again, in any interleaving between resets |
| `TunnelTerminal.LateFailureNeverWins` | crates/pandar-bambu-source/src/tunnel.rs:251-262 | In every run, a failure whose closing check comes after a close began neither becomes the terminal nor is logged |
| `TunnelTerminal.LoggedExactlyOnce` | crates/pandar-bambu-source/src/tunnel.rs:244-269 | The log fires at most once, only for the terminal's failure, and exactly once when that is a failure and all reports finished |
| `TunnelTerminal.FinishEofEnds` | crates/pandar-bambu-source/src/tunnel.rs:237-242 | Ending a session leaves a terminal for good: Eof, unless one was set before |
| `TunnelTerminal.FailureAroseFirst` | crates/pandar-bambu-source/src/tunnel.rs:244-262 | A terminal that is a failure is one that arose in the run |
| `TunnelTerminal.UnopposedFailureWins` | crates/pandar-bambu-source/src/tunnel.rs:244-262 | Without a close and an end of the stream, a finished report means that a failure is the terminal |
| `TunnelTerminal.StepKeeps` | crates/pandar-bambu-source/src/tunnel.rs:212-269 | Every step of reader, opener and closer keeps the latch invariant |
| `TunnelTerminal.Shared.RecordFailure` | crates/pandar-bambu-source/src/tunnel.rs:251-262 | Check, any steps of other threads, then latch: it wins exactly when it saw no close and nothing else set the terminal first; the terminal is what the others left, else Eof after a close and this failure otherwise; the fields are those of the two steps |
| `TunnelTerminal.Shared.FinishEof` | crates/pandar-bambu-source/src/tunnel.rs:237-242 | Sets an unset terminal only |
| `TunnelTerminal.Shared.Reset` | crates/pandar-bambu-source/src/tunnel.rs:213-217 | Restores the state every run starts from |
| `TunnelTerminal.Shared.PendingCode` | crates/pandar-bambu-source/src/tunnel.rs:219-235 | Would-block exactly when no terminal was set, otherwise the code of that terminal, whatever other threads do between the two lock sections |
| `TunnelTerminal.Samples.ReadSample` | crates/pandar-bambu-source/src/tunnel.rs:142-173 | An offered frame always fits, is delivered whole and counted; totals equal the delivered history; an empty queue answers would-block or the terminal's code, a closed one the terminal's code, no session is invalid |
| `PostgresSql.Rewriter` | crates/pandar-hub/src/cleanup.rs:224-237 | The loop numbers the placeholders from one |
| `PostgresSql.RewritePreservesMeaning` | crates/pandar-hub/src/cleanup.rs:224-237 | With binding as plain text substitution: binding by index after the rewrite equals binding by position before it, for every list of values, exactly when no `?` or `$` is directly followed by a digit |
| `PostgresSql.WrappedSelectKeepsNumbers` | crates/pandar-hub/src/cleanup.rs:107-145 | Wrapping a select in placeholder-free text does not renumber it |
| `DeviceFeatures.AcceptsExactly` | crates/pandar-core/src/device_features.rs:9-24 | Accepted texts are exactly 1 to 16 hexadecimal digits after trimming; the value never overflows |
| `DeviceFeatures.ParsesExactly` | crates/pandar-core/src/device_features.rs:9-24 | On the text itself: a bitmap results exactly from whitespace around 1 to 16 hexadecimal digits that denote it; blank text is empty |
| `DeviceFeatures.ContainsIsBit` | crates/pandar-core/src/device_features.rs:38-40 | A feature is present exactly when its own bit, 32 or 38, is set |
| `DeviceFeatures.PrintParse` | crates/pandar-core/src/device_features.rs:9-40 | Every 64-bit bitmap survives printing and parsing, with every feature test |
| `DeviceFeatures.ParsePrint` | crates/pandar-core/src/device_features.rs:9-36 | An accepted text prints back in upper case without leading zeros and parses to the same bitmap |
| `DeviceFeatures.FeaturesAreIndependent` | crates/pandar-core/src/device_features.rs:38-97 | Setting a feature's bit sets that feature and leaves the other as it was |
| `MismatchDialog.FirstUnopenedIsFirst` | frontend/app/printer-mismatch-dialog.tsx:71-89 | The occurrence selected next is the first unseen one in list order, and there is none exactly when all were seen |
| `MismatchDialog.Coordinator.Effect` | frontend/app/printer-mismatch-dialog.tsx:66-77 | Keeps a current selection, else selects the first unseen occurrence or none |
| `MismatchDialog.Coordinator.Dismiss` | frontend/app/printer-mismatch-dialog.tsx:79-94 | Records the key and selects the next unseen occurrence or none |
| `MismatchDialog.Coordinator.Open` | frontend/app/printer-mismatch-dialog.tsx:95-106 | Selects and records a current occurrence, ignores any other |
| `MismatchDialog.ShownAtMostOnce` | frontend/app/printer-mismatch-dialog.tsx:66-106 | In every run each key is shown automatically at most once, and a selected key is recorded |
| `MismatchDialog.OpenShowsKey` | frontend/app/printer-mismatch-dialog.tsx:95-106 | Opening a current occurrence shows and records it; any other key changes nothing |
| `MismatchDialog.DismissalMovesOn` | frontend/app/printer-mismatch-dialog.tsx:79-94 | A dismissal records its key and goes on to the first occurrence not seen, never the dismissed one |
| `MismatchDialog.EffectShowsNext` | frontend/app/printer-mismatch-dialog.tsx:66-77 | With nothing current shown the effect shows the first occurrence not seen, if there is one |
| `MismatchDialog.EffectKeepsCurrent` | frontend/app/printer-mismatch-dialog.tsx:66-70 | What is shown and still current stays |
| `MismatchDialog.ClosedMeansAllSeen` | frontend/app/printer-mismatch-dialog.tsx:66-94 | When the effect or a dismissal leaves the dialog closed every current occurrence has been seen |
| `MismatchDialog.SelectionConsumes` | frontend/app/printer-mismatch-dialog.tsx:71-91 | Every automatic selection leaves strictly fewer unseen occurrences |
| `ArtifactPreview.Hook.SelectArtifact` | frontend/app/use-dispatch-artifact.ts:29-43 | A pick, an oversized pick or a clear updates the hook as the step system does; a request is sent exactly for an acceptable file with a tenant |
| `ArtifactPreview.Hook.OnResponse` | frontend/app/use-dispatch-artifact.ts:45-57 | A stale response changes nothing shown; a current failure shows an error |
| `ArtifactPreview.Hook.OnBody` | frontend/app/use-dispatch-artifact.ts:58-82 | A stale body changes nothing shown; a current one settles the preview |
| `ArtifactPreview.PreviewMatchesSelection` | frontend/app/use-dispatch-artifact.ts:29-105 | With a fixed tenant, in every order of picks and responses, a ready preview belongs to the selected artifact and loading means the newest request is outstanding |
| `ArtifactPreview.PickTakesEffect` | frontend/app/use-dispatch-artifact.ts:29-43 | A pick replaces the artifact at once; above 256 MiB it is refused, otherwise its preview is requested if there is a tenant |
| `ArtifactPreview.StaleChangesNothing` | frontend/app/use-dispatch-artifact.ts:45-82 | A continuation of an older request changes nothing that is shown |
| `ArtifactPreview.NewestSettles` | frontend/app/use-dispatch-artifact.ts:45-82 | The newest request settles the preview by its metadata, its absence or an error |
| `ArtifactPreview.StepKeepsExactly` | frontend/app/use-dispatch-artifact.ts:29-105 | A step breaks that exactly when a file is picked without a tenant while the newest request is outstanding |
| `ArtifactPreview.RunKeepsExactly` | frontend/app/use-dispatch-artifact.ts:29-105 | Whatever the tenant does, a run keeps it throughout exactly when no step is of that kind |
| `ArtifactPreview.TenantLossShowsWrongFile` | frontend/app/use-dispatch-artifact.ts:29-34 | For any two acceptable files a run ends with the first one's metadata shown for the second |

## Left out

- Error message texts: an error is a constructor with its cause, not the formatted sentence.
- Absolute JSON paths: the validator's paths are relative to the payload root, without the leading `$` and its punctuation.
- Prototype members of the schema table (`schemas["toString"]`): schema and field lookups see own names only.
- Colour parsing, `Math.hypot` rounding, locale comparison and `trim().toUpperCase()`: parameters of the mapping model.
- Display-only slot fields (names, setting ids, remaining estimates) and the mixed AMS Lite tray table.
- `plateId` in the artifact hook: the plate chosen with a preview is not tracked, only the preview and its file.
- The contents of the agent's and the hub's command channels: a send is an action that succeeds or not; sent close commands are not tracked.
- `AgentStream` leaves out what a firmware or other command does while it runs; only how it ends matters to the stream.
- Camera capacity permits (crates/pandar-hub/src/camera_sessions/capacity.rs): a counter per tenant that adds only an easy invariant.
- Two producers feeding one stream id: the registry model has one sequential producer per stream, as the reverse camera loop provides.
- Tunnel lifecycle (crates/pandar-bambu-source/src/tunnel/lifecycle.rs): open and close appear only through the terminal steps they take.
- The bounded frame queue between reader and sampler: a frame offered to a full queue is dropped by design, so frames are counted where they are offered and where they are delivered.
- 64-bit overflow of the delivered byte and frame counters.
- RewritePreservesMeaning: does not tell quoted SQL literals apart, because `postgres_sql` does not; a `?` inside one is a placeholder in this reading although a database would not bind it.
- SQL execution, gRPC, HTTP, NATS, TLS and process start-up; React rendering and translations; the C ABI.
- Firmware fencing, session claims, reconnect backoff, model compatibility tables and status mappings.
