/**
 `materialMappingPayload` of frontend/app/dispatch-material-auto-map.ts: the three
 parallel arrays sent to the hub, built from any selection map and re-checked for
 eligibility, and their agreement with the automatic selection.
*/
module MappingPayload {
  import opened Basics
  import opened MaterialMapping
  import opened AutoMap
  import opened AutoMapTheorems

  const UNMAPPED := -1
  const UNMAPPED_MAPPING2 := 255

  datatype Mapping2Entry = Mapping2Entry(amsId: int, slotId: int)

  datatype InfoEntry = InfoEntry(
    ams: int, filamentType: string, filamentId: string, nozzle: Nozzle, sourceColor: string, targetColor: string)

  datatype Payload = Payload(
    amsMapping: seq<int>,
    amsMapping2: seq<Mapping2Entry>,
    amsMappingInfo: Option<seq<InfoEntry>>,
    externalTypeMismatch: bool,
    mappingValid: bool,
    usesAms: bool)

  /** The arguments of one call. */
  datatype Request = Request(
    palette: Palette,
    filaments: seq<ProjectFilament>,
    slots: seq<PrinterAmsSlot>,
    selections: Selections,
    useAms: bool)

  /** `new Map(slots.map(slot => [slot.key, slot]))`: the last slot with a key wins. */
  function SlotByKey(slots: seq<PrinterAmsSlot>, key: string): Option<PrinterAmsSlot> {
    if slots == [] then None
    else if slots[|slots| - 1].key == key then Some(slots[|slots| - 1])
    else SlotByKey(slots[..|slots| - 1], key)
  }

  function FilamentByIndex(filaments: seq<ProjectFilament>, i: nat): Option<ProjectFilament> {
    if filaments == [] then None
    else if filaments[|filaments| - 1].mappingIndex == i then Some(filaments[|filaments| - 1])
    else FilamentByIndex(filaments[..|filaments| - 1], i)
  }

  /** The slot selected for an index; an empty key counts as no selection. */
  function SelectedSlot(q: Request, i: nat): Option<PrinterAmsSlot> {
    if i in q.selections && q.selections[i] != "" then SlotByKey(q.slots, q.selections[i]) else None
  }

  /** One of the first `n` filaments has index `i` and may use the slot selected for it. */
  ghost predicate Claimed(q: Request, n: nat, i: nat)
    requires n <= |q.filaments|
  {
    && SelectedSlot(q, i).Some?
    && exists f: nat | f < n ::
         q.filaments[f].mappingIndex == i
         && Eligible(q.palette, q.filaments[f], SelectedSlot(q, i).value, q.slots, q.useAms)
  }

  /** The slot that position `i` of the payload stands for. */
  ghost function Chosen(q: Request, i: nat): Option<PrinterAmsSlot> {
    if Claimed(q, |q.filaments|, i) then SelectedSlot(q, i) else None
  }

  ghost predicate IsLength(filaments: seq<ProjectFilament>, length: nat) {
    && (forall f | 0 <= f < |filaments| :: filaments[f].mappingIndex < length)
    && (length > 0 ==> exists f | 0 <= f < |filaments| :: filaments[f].mappingIndex + 1 == length)
  }

  /** The position-wise meaning of the two mandatory arrays. */
  ghost predicate ArraysShow(q: Request, n: nat, mapping: seq<int>, mapping2: seq<Mapping2Entry>)
    requires n <= |q.filaments|
  {
    && |mapping| == |mapping2|
    && forall i: nat | i < |mapping| ::
         if Claimed(q, n, i) then
           var slot := SelectedSlot(q, i).value;
           mapping[i] == slot.legacyTrayId && mapping2[i] == Mapping2Entry(slot.amsId, slot.slotId)
         else
           mapping[i] == -1 && mapping2[i] == Mapping2Entry(255, 255)
  }

  function InfoFor(palette: Palette, filament: ProjectFilament, slot: Option<PrinterAmsSlot>): InfoEntry
    requires filament.nozzle.Some?
  {
    InfoEntry(if slot.Some? then slot.value.globalTrayId else UNMAPPED,
              TextOr(filament.filamentType),
              TextOr(filament.trayInfoIdx),
              filament.nozzle.value,
              palette.payloadColor(filament.color),
              palette.payloadColor(if slot.Some? then slot.value.color else None))
  }

  /** An info entry names the filament's type, preset, nozzle and colour and the slot's tray and colour. */
  predicate InfoShows(palette: Palette, entry: InfoEntry, filament: ProjectFilament, slot: Option<PrinterAmsSlot>) {
    && filament.nozzle == Some(entry.nozzle)
    && entry.filamentType == TextOr(filament.filamentType)
    && entry.filamentId == TextOr(filament.trayInfoIdx)
    && entry.sourceColor == palette.payloadColor(filament.color)
    && match slot
       case None => entry.ams == -1 && entry.targetColor == palette.payloadColor(None)
       case Some(s) => entry.ams == s.globalTrayId && entry.targetColor == palette.payloadColor(s.color)
  }

  /** The filament's slot is an external one whose known type differs from the filament's. */
  ghost predicate OnOtherExternal(palette: Palette, filament: ProjectFilament, slot: Option<PrinterAmsSlot>) {
    slot.Some? && slot.value.kind == External && TypesDiffer(palette, filament.filamentType, slot.value.filamentType)
  }

  /** Every position up to `length` belongs to a filament with a known nozzle. */
  predicate InfoComplete(filaments: seq<ProjectFilament>, length: nat) {
    forall i: nat | i < length ::
      FilamentByIndex(filaments, i).Some? && FilamentByIndex(filaments, i).value.nozzle.Some?
  }

  /** What a payload says about its request, position by position. */
  ghost predicate Describes(q: Request, p: Payload) {
    && IsLength(q.filaments, |p.amsMapping|)
    && ArraysShow(q, |q.filaments|, p.amsMapping, p.amsMapping2)
    && (p.amsMappingInfo.Some? <==> InfoComplete(q.filaments, |p.amsMapping|))
    && (p.amsMappingInfo.Some? ==>
          && |p.amsMappingInfo.value| == |p.amsMapping|
          && forall i: nat | i < |p.amsMapping| ::
               InfoShows(q.palette, p.amsMappingInfo.value[i], FilamentByIndex(q.filaments, i).value, Chosen(q, i)))
    && (p.externalTypeMismatch <==>
          exists f | 0 <= f < |q.filaments| ::
            OnOtherExternal(q.palette, q.filaments[f], Chosen(q, q.filaments[f].mappingIndex)))
    && (p.mappingValid <==>
          DistinctIndices(q.filaments)
          && forall f | 0 <= f < |q.filaments| :: Chosen(q, q.filaments[f].mappingIndex).Some?)
    && (p.usesAms <==> exists i: nat | i < |p.amsMapping| :: Chosen(q, i).Some? && Chosen(q, i).value.kind.Ams?)
  }

  method MappingLength(filaments: seq<ProjectFilament>) returns (length: nat)
    ensures IsLength(filaments, length)
  {
    length := 0;
    for n := 0 to |filaments|
      invariant IsLength(filaments[..n], length)
    {
      if filaments[n].mappingIndex + 1 > length {
        length := filaments[n].mappingIndex + 1;
      }
      assert filaments[..n + 1] == filaments[..n] + [filaments[n]];
    }
    assert filaments[..|filaments|] == filaments;
  }

  /** The main loop: re-checks each filament's selection and records what it keeps. */
  method FillArrays(q: Request, length: nat)
    returns (mapping: seq<int>, mapping2: seq<Mapping2Entry>, selected: map<nat, PrinterAmsSlot>)
    requires IsLength(q.filaments, length)
    ensures |mapping| == length && ArraysShow(q, |q.filaments|, mapping, mapping2)
    ensures forall i :: i in selected <==> Claimed(q, |q.filaments|, i)
    ensures forall i | i in selected :: SelectedSlot(q, i) == Some(selected[i])
  {
    mapping := seq(length, _ => UNMAPPED);
    mapping2 := seq(length, _ => Mapping2Entry(UNMAPPED_MAPPING2, UNMAPPED_MAPPING2));
    selected := map[];
    for n := 0 to |q.filaments|
      invariant |mapping| == length && ArraysShow(q, n, mapping, mapping2)
      invariant forall i :: i in selected <==> Claimed(q, n, i)
      invariant forall i | i in selected :: SelectedSlot(q, i) == Some(selected[i])
    {
      var index := q.filaments[n].mappingIndex;
      var slot := SelectedSlot(q, index);
      ClaimStep(q, n);
      if slot.Some? && Eligible(q.palette, q.filaments[n], slot.value, q.slots, q.useAms) {
        selected := selected[index := slot.value];
        mapping := mapping[index := slot.value.legacyTrayId];
        mapping2 := mapping2[index := Mapping2Entry(slot.value.amsId, slot.value.slotId)];
      }
    }
  }

  lemma ClaimStep(q: Request, n: nat)
    requires n < |q.filaments|
    ensures forall i :: Claimed(q, n + 1, i) <==>
              Claimed(q, n, i)
              || (i == q.filaments[n].mappingIndex && SelectedSlot(q, i).Some?
                  && Eligible(q.palette, q.filaments[n], SelectedSlot(q, i).value, q.slots, q.useAms))
  {
  }

  // ----- Counting selected indices -----

  ghost function Indices(filaments: seq<ProjectFilament>): set<nat> {
    set f | 0 <= f < |filaments| :: filaments[f].mappingIndex
  }

  lemma {:induction false} IndexCount(filaments: seq<ProjectFilament>)
    ensures |Indices(filaments)| <= |filaments|
    ensures |Indices(filaments)| == |filaments| <==> DistinctIndices(filaments)
  {
    if filaments != [] {
      var rest, last := filaments[..|filaments| - 1], filaments[|filaments| - 1].mappingIndex;
      IndexCount(rest);
      assert filaments == rest + [filaments[|filaments| - 1]];
      assert Indices(filaments) == Indices(rest) + {last};
      if DistinctIndices(filaments) {
        assert DistinctIndices(rest) && last !in Indices(rest);
      }
      if last in Indices(rest) {
        assert Indices(filaments) == Indices(rest);
        var f :| 0 <= f < |rest| && rest[f].mappingIndex == last;
        assert filaments[f].mappingIndex == filaments[|filaments| - 1].mappingIndex;
      } else {
        assert DistinctIndices(rest) ==> DistinctIndices(filaments);
      }
    }
  }

  /** `selectedSlots.size === filaments.length`, decoded. */
  lemma SizeMeansAllChosen(q: Request, selected: map<nat, PrinterAmsSlot>)
    requires forall i :: i in selected <==> Claimed(q, |q.filaments|, i)
    ensures |selected| == |q.filaments| <==>
            DistinctIndices(q.filaments)
            && forall f | 0 <= f < |q.filaments| :: Chosen(q, q.filaments[f].mappingIndex).Some?
  {
    var indices := Indices(q.filaments);
    IndexCount(q.filaments);
    assert selected.Keys <= indices;
    SubsetSize(selected.Keys, indices);
    if |selected| == |q.filaments| {
      if selected.Keys != indices {
        var i :| i in indices && i !in selected.Keys;
        SubsetSize(selected.Keys, indices - {i});
        assert false;
      }
    }
    if forall f | 0 <= f < |q.filaments| :: Chosen(q, q.filaments[f].mappingIndex).Some? {
      assert selected.Keys == indices;
    }
  }

  /** `selected` is the run-time form of `Chosen`. */
  ghost predicate Records(q: Request, selected: map<nat, PrinterAmsSlot>) {
    forall i: nat :: Chosen(q, i) == if i in selected then Some(selected[i]) else None
  }

  method BuildInfo(q: Request, length: nat, selected: map<nat, PrinterAmsSlot>) returns (info: Option<seq<InfoEntry>>)
    requires Records(q, selected)
    ensures info.Some? <==> InfoComplete(q.filaments, length)
    ensures info.Some? ==>
              && |info.value| == length
              && forall i: nat | i < length ::
                   InfoShows(q.palette, info.value[i], FilamentByIndex(q.filaments, i).value, Chosen(q, i))
  {
    info := None;
    if InfoComplete(q.filaments, length) {
      info := Some(seq(length, i requires 0 <= i < length =>
        InfoFor(q.palette, FilamentByIndex(q.filaments, i).value, if i in selected then Some(selected[i]) else None)));
    }
  }

  predicate ExternalMismatch(palette: Palette, filament: ProjectFilament, slot: Option<PrinterAmsSlot>) {
    slot.Some? && slot.value.kind.External?
    && KnownTypeMismatch(palette, filament.filamentType, slot.value.filamentType)
  }

  /** The two flags: an external slot of another type, and any AMS slot at all. */
  method BuildFlags(q: Request, length: nat, selected: map<nat, PrinterAmsSlot>) returns (mismatch: bool, usesAms: bool)
    requires Records(q, selected)
    ensures mismatch <==> exists f | 0 <= f < |q.filaments| ::
              OnOtherExternal(q.palette, q.filaments[f], Chosen(q, q.filaments[f].mappingIndex))
    ensures usesAms <==> exists i: nat | i < length :: Chosen(q, i).Some? && Chosen(q, i).value.kind.Ams?
  {
    mismatch := false;
    for n := 0 to |q.filaments|
      invariant mismatch <==> exists f | 0 <= f < n ::
                  OnOtherExternal(q.palette, q.filaments[f], Chosen(q, q.filaments[f].mappingIndex))
    {
      var i := q.filaments[n].mappingIndex;
      mismatch := mismatch
        || ExternalMismatch(q.palette, q.filaments[n], if i in selected then Some(selected[i]) else None);
    }
    usesAms := exists i: nat | i < length :: i in selected && selected[i].kind.Ams?;
  }

  /** `materialMappingPayload`. */
  method MaterialMappingPayload(q: Request) returns (p: Payload)
    ensures Describes(q, p)
  {
    var length := MappingLength(q.filaments);
    var mapping, mapping2, selected := FillArrays(q, length);
    SizeMeansAllChosen(q, selected);
    assert Records(q, selected);
    var info := BuildInfo(q, length, selected);
    var mismatch, usesAms := BuildFlags(q, length, selected);
    p := Payload(mapping, mapping2, info, mismatch, |selected| == |q.filaments|, usesAms);
  }

  // ----- Properties of every payload -----

  lemma {:induction false} SlotByKeyIsSlot(slots: seq<PrinterAmsSlot>, key: string)
    ensures SlotByKey(slots, key).Some? ==>
              SlotByKey(slots, key).value in slots && SlotByKey(slots, key).value.key == key
    ensures SlotByKey(slots, key).None? ==> forall j | 0 <= j < |slots| :: slots[j].key != key
  {
    if slots != [] {
      SlotByKeyIsSlot(slots[..|slots| - 1], key);
    }
  }

  /** The last filament with index `i`, as a later entry of a JavaScript map replaces an earlier one. */
  ghost predicate IsLastWithIndex(filaments: seq<ProjectFilament>, k: nat, i: nat) {
    && k < |filaments| && filaments[k].mappingIndex == i
    && forall l | k < l < |filaments| :: filaments[l].mappingIndex != i
  }

  ghost predicate HasIndex(filaments: seq<ProjectFilament>, i: nat) {
    exists k | 0 <= k < |filaments| :: filaments[k].mappingIndex == i
  }

  lemma {:induction false} FilamentByIndexIsLast(filaments: seq<ProjectFilament>, i: nat)
    ensures FilamentByIndex(filaments, i).Some? <==> HasIndex(filaments, i)
    ensures forall k: nat | IsLastWithIndex(filaments, k, i) :: FilamentByIndex(filaments, i) == Some(filaments[k])
    ensures FilamentByIndex(filaments, i).Some? ==> exists k: nat :: IsLastWithIndex(filaments, k, i)
  {
    if filaments != [] {
      var rest, n := filaments[..|filaments| - 1], |filaments| - 1;
      if filaments[n].mappingIndex == i {
        assert IsLastWithIndex(filaments, n, i);
      } else {
        FilamentByIndexIsLast(rest, i);
        forall k: nat
          ensures IsLastWithIndex(filaments, k, i) <==> IsLastWithIndex(rest, k, i)
        {
          assert IsLastWithIndex(rest, k, i) ==> forall l | k < l < n :: filaments[l] == rest[l];
        }
      }
    }
  }

  /**
   The third array on the filaments themselves. It is there exactly when every position is
   some filament's index and the last filament of each index has a known nozzle; then each
   of those filaments is shown at its own index, with the slot chosen there.
  */
  lemma InfoShowsOwnFilament(q: Request, p: Payload)
    requires Describes(q, p)
    ensures p.amsMappingInfo.Some? <==>
            && (forall i: nat | i < |p.amsMapping| :: HasIndex(q.filaments, i))
            && (forall k: nat | k < |q.filaments| && IsLastWithIndex(q.filaments, k, q.filaments[k].mappingIndex) ::
                  q.filaments[k].nozzle.Some?)
    ensures p.amsMappingInfo.Some? ==>
              |p.amsMappingInfo.value| == |p.amsMapping|
              && forall k: nat | k < |q.filaments| && IsLastWithIndex(q.filaments, k, q.filaments[k].mappingIndex) ::
                   var i := q.filaments[k].mappingIndex;
                   i < |p.amsMapping| && InfoShows(q.palette, p.amsMappingInfo.value[i], q.filaments[k], Chosen(q, i))
  {
    forall i: nat
      ensures FilamentByIndex(q.filaments, i).Some? <==> HasIndex(q.filaments, i)
      ensures forall k: nat | IsLastWithIndex(q.filaments, k, i) ::
                FilamentByIndex(q.filaments, i) == Some(q.filaments[k])
      ensures FilamentByIndex(q.filaments, i).Some? ==> exists k: nat :: IsLastWithIndex(q.filaments, k, i)
    {
      FilamentByIndexIsLast(q.filaments, i);
    }
  }

  /** With distinct indices, as a plate gives them, every filament is shown at its own index. */
  lemma InfoShowsEveryFilament(q: Request, p: Payload, f: nat)
    requires Describes(q, p) && DistinctIndices(q.filaments) && f < |q.filaments| && p.amsMappingInfo.Some?
    ensures var i := q.filaments[f].mappingIndex;
            && i < |p.amsMappingInfo.value|
            && InfoShows(q.palette, p.amsMappingInfo.value[i], q.filaments[f], Chosen(q, i))
  {
    assert IsLastWithIndex(q.filaments, f, q.filaments[f].mappingIndex);
    InfoShowsOwnFilament(q, p);
  }

  /** Arrays of one length, which the hub accepts (at most 32) whenever the indices come from a plate. */
  lemma PayloadFitsHub(q: Request, p: Payload)
    requires Describes(q, p) && IndicesInRange(q.filaments)
    ensures |p.amsMapping2| == |p.amsMapping|
    ensures p.amsMappingInfo.Some? ==> |p.amsMappingInfo.value| == |p.amsMapping|
    ensures |p.amsMapping| <= 32
  {
  }

  /**
   For every selection map, user-made or stale: a mapped position holds a slot of the
   printer that some filament of that index is eligible for, and with AMS off no AMS slot
   appears anywhere.
  */
  lemma MappedPositionsAreEligible(q: Request, p: Payload, i: nat)
    requires Describes(q, p) && i < |p.amsMapping|
    requires Chosen(q, i).Some?
    ensures var slot := Chosen(q, i).value;
            && slot in q.slots && slot.key == q.selections[i]
            && p.amsMapping2[i] == Mapping2Entry(slot.amsId, slot.slotId)
            && (exists f | 0 <= f < |q.filaments| ::
                  q.filaments[f].mappingIndex == i && Eligible(q.palette, q.filaments[f], slot, q.slots, q.useAms))
            && (!q.useAms ==> slot.kind.External? && !p.usesAms)
  {
    SlotByKeyIsSlot(q.slots, q.selections[i]);
  }

  /** The mapped positions are recoverable from the second array when no slot uses the marker. */
  lemma MappedIsRecoverable(q: Request, p: Payload, i: nat)
    requires Describes(q, p) && i < |p.amsMapping|
    requires forall j | 0 <= j < |q.slots| ::
               !(q.slots[j].amsId == 255 && q.slots[j].slotId == 255)
    ensures Chosen(q, i).Some? <==> p.amsMapping2[i] != Mapping2Entry(255, 255)
  {
    if Chosen(q, i).Some? {
      SlotByKeyIsSlot(q.slots, q.selections[i]);
      var j :| 0 <= j < |q.slots| && q.slots[j] == Chosen(q, i).value;
    }
  }

  // ----- The automatic selection is never dropped -----

  predicate DistinctKeys(slots: seq<PrinterAmsSlot>) {
    && (forall j, k | 0 <= j < k < |slots| :: slots[j].key != slots[k].key)
    && (forall j | 0 <= j < |slots| :: slots[j].key != "")
  }

  lemma {:induction false} SlotByDistinctKey(slots: seq<PrinterAmsSlot>, j: nat)
    requires DistinctKeys(slots) && j < |slots|
    ensures SlotByKey(slots, slots[j].key) == Some(slots[j])
  {
    SlotByKeyIsSlot(slots, slots[j].key);
    var k :| 0 <= k < |slots| && slots[k] == SlotByKey(slots, slots[j].key).value;
    assert k < j ==> slots[k].key != slots[j].key;
    assert j < k ==> slots[j].key != slots[k].key;
  }

  /** Some slot is compatible with the filament. */
  ghost predicate HasSlot(palette: Palette, filament: ProjectFilament, slots: seq<PrinterAmsSlot>, useAms: bool) {
    exists j: nat | j < |slots| :: Compatible(palette, filament, slots[j], slots, useAms)
  }

  ghost predicate HasCompatibleSlot(q: Request, f: nat)
    requires f < |q.filaments|
  {
    HasSlot(q.palette, q.filaments[f], q.slots, q.useAms)
  }

  /** An automatic choice passes the payload's own eligibility check. */
  lemma AutomaticChoiceIsKept(q: Request, f: nat)
    requires DistinctKeys(q.slots) && DistinctIndices(q.filaments) && f < |q.filaments|
    requires q.selections == AutoSelections(CompatiblePairs(q.palette, q.filaments, q.slots, q.useAms))
    ensures Chosen(q, q.filaments[f].mappingIndex).Some? <==> HasCompatibleSlot(q, f)
    ensures q.filaments[f].mappingIndex in q.selections <==> HasCompatibleSlot(q, f)
  {
    var i := q.filaments[f].mappingIndex;
    SelectionIsCompatible(q.palette, q.filaments, q.slots, q.useAms, i);
    if i in q.selections {
      var g: nat, j: nat :| g < |q.filaments| && j < |q.slots| && q.filaments[g].mappingIndex == i
                            && q.slots[j].key == q.selections[i]
                            && Compatible(q.palette, q.filaments[g], q.slots[j], q.slots, q.useAms);
      assert g == f;
      SlotByDistinctKey(q.slots, j);
      assert SelectedSlot(q, i) == Some(q.slots[j]);
      assert Claimed(q, |q.filaments|, i);
    }
  }

  /**
   The key selected for a filament leads back to a slot the filament may use: the key is
   not empty, and the last slot that carries it is eligible.
  */
  ghost predicate KeyLeadsBack(q: Request, f: nat)
    requires f < |q.filaments|
  {
    var i := q.filaments[f].mappingIndex;
    && i in q.selections && q.selections[i] != ""
    && SlotByKey(q.slots, q.selections[i]).Some?
    && Eligible(q.palette, q.filaments[f], SlotByKey(q.slots, q.selections[i]).value, q.slots, q.useAms)
  }

  /** Exactly when an automatic choice survives the re-check, for any slot keys. */
  lemma AutomaticChoiceKeptExactly(q: Request, f: nat)
    requires DistinctIndices(q.filaments) && f < |q.filaments|
    requires q.selections == AutoSelections(CompatiblePairs(q.palette, q.filaments, q.slots, q.useAms))
    ensures Chosen(q, q.filaments[f].mappingIndex).Some? <==> HasCompatibleSlot(q, f) && KeyLeadsBack(q, f)
  {
    var i := q.filaments[f].mappingIndex;
    SelectionIsCompatible(q.palette, q.filaments, q.slots, q.useAms, i);
    if i in q.selections {
      var g: nat, j: nat :| g < |q.filaments| && j < |q.slots| && q.filaments[g].mappingIndex == i
                            && q.slots[j].key == q.selections[i]
                            && Compatible(q.palette, q.filaments[g], q.slots[j], q.slots, q.useAms);
      assert g == f;
      SlotByKeyIsSlot(q.slots, q.selections[i]);
    }
    if KeyLeadsBack(q, f) {
      assert Claimed(q, |q.filaments|, i);
    }
  }

  /**
   Exactly when the payload of the automatic selection is valid, for any indices and slot
   keys: the indices differ, and every filament has a compatible slot whose selected key
   leads back to a slot it may use.
  */
  lemma AutomaticValidityExactly(q: Request, p: Payload)
    requires q.selections == AutoSelections(CompatiblePairs(q.palette, q.filaments, q.slots, q.useAms))
    requires Describes(q, p)
    ensures p.mappingValid <==>
            DistinctIndices(q.filaments)
            && forall f: nat | f < |q.filaments| :: HasCompatibleSlot(q, f) && KeyLeadsBack(q, f)
  {
    if DistinctIndices(q.filaments) {
      forall f: nat | f < |q.filaments|
        ensures Chosen(q, q.filaments[f].mappingIndex).Some? <==> HasCompatibleSlot(q, f) && KeyLeadsBack(q, f)
      {
        AutomaticChoiceKeptExactly(q, f);
      }
    }
  }

  /**
   A family that fails: when a slot is followed by an ineligible one with its key, the
   automatic choice of that slot is dropped by the re-check.
  */
  lemma DuplicateKeyDropsChoice(
    palette: Palette, f: ProjectFilament, a: PrinterAmsSlot, b: PrinterAmsSlot, useAms: bool)
    requires a.key == b.key
    requires Compatible(palette, f, a, [a, b], useAms) && !Eligible(palette, f, b, [a, b], useAms)
    ensures var selections := AutoSelections(CompatiblePairs(palette, [f], [a, b], useAms));
            var q := Request(palette, [f], [a, b], selections, useAms);
            HasCompatibleSlot(q, 0) && f.mappingIndex in selections && Chosen(q, f.mappingIndex).None?
  {
    var slots := [a, b];
    var selections := AutoSelections(CompatiblePairs(palette, [f], slots, useAms));
    var q := Request(palette, [f], slots, selections, useAms);
    assert Compatible(q.palette, q.filaments[0], q.slots[0], q.slots, q.useAms);
    SelectionIsCompatible(palette, [f], slots, useAms, f.mappingIndex);
    assert SlotByKey(slots, a.key) == Some(b);
  }

  /**
   The payload of the automatic selection is valid exactly when every filament has a
   compatible slot.
  */
  lemma AutomaticPayloadValidity(q: Request, p: Payload)
    requires DistinctKeys(q.slots) && DistinctIndices(q.filaments)
    requires q.selections == AutoSelections(CompatiblePairs(q.palette, q.filaments, q.slots, q.useAms))
    requires Describes(q, p)
    ensures p.mappingValid <==> forall f: nat | f < |q.filaments| :: HasCompatibleSlot(q, f)
  {
    forall f: nat | f < |q.filaments|
      ensures Chosen(q, q.filaments[f].mappingIndex).Some? <==> HasCompatibleSlot(q, f)
    {
      AutomaticChoiceIsKept(q, f);
    }
  }

  /** The request that carries the automatic selection. */
  ghost function AutomaticRequest(
    palette: Palette, filaments: seq<ProjectFilament>, slots: seq<PrinterAmsSlot>, useAms: bool): Request
  {
    Request(palette, filaments, slots, AutoSelections(CompatiblePairs(palette, filaments, slots, useAms)), useAms)
  }

  /**
   `autoMapProjectFilaments`: each position holds the tray of its automatic choice; with
   distinct keys and indices that choice exists for every filament with a compatible slot.
  */
  method AutoMapProjectFilaments(
    palette: Palette, filaments: seq<ProjectFilament>, slots: seq<PrinterAmsSlot>, useAms: bool)
    returns (amsMapping: seq<int>)
    ensures IsLength(filaments, |amsMapping|)
    ensures forall i: nat | i < |amsMapping| ::
              var choice := Chosen(AutomaticRequest(palette, filaments, slots, useAms), i);
              amsMapping[i] == if choice.Some? then choice.value.legacyTrayId else -1
    ensures DistinctKeys(slots) && DistinctIndices(filaments) ==>
              forall f: nat | f < |filaments| ::
                var q := AutomaticRequest(palette, filaments, slots, useAms);
                Chosen(q, filaments[f].mappingIndex).Some? <==> HasCompatibleSlot(q, f)
  {
    var selections := AutoMapSlotSelections(palette, filaments, slots, useAms);
    var q := Request(palette, filaments, slots, selections, useAms);
    var payload := MaterialMappingPayload(q);
    amsMapping := payload.amsMapping;
    assert q == AutomaticRequest(palette, filaments, slots, useAms);
    if DistinctKeys(slots) && DistinctIndices(filaments) {
      forall f: nat | f < |filaments|
        ensures Chosen(q, filaments[f].mappingIndex).Some? <==> HasCompatibleSlot(q, f)
      {
        AutomaticChoiceIsKept(q, f);
      }
    }
  }
}
