/**
 The material entities of frontend/app/dispatch-material-mapping.ts, the filament index
 allocation for a plate, and the slot eligibility rules of
 frontend/app/dispatch-material-auto-map.ts.
*/
module MaterialMapping {
  import opened Basics

  const MAX_MAPPING_LENGTH := 32

  datatype Nozzle = Nozzle0 | Nozzle1

  datatype Toolhead = L | R | LR

  datatype SlotKind = Ams | External

  datatype ProjectFilament = ProjectFilament(
    mappingIndex: nat,
    trayInfoIdx: Option<string>,
    filamentType: Option<string>,
    color: Option<string>,
    nozzle: Option<Nozzle>)

  datatype PrinterAmsSlot = PrinterAmsSlot(
    key: string,
    kind: SlotKind,
    amsId: int,
    slotId: int,
    globalTrayId: int,
    legacyTrayId: int,
    filamentId: Option<string>,
    filamentType: Option<string>,
    color: Option<string>,
    toolhead: Option<Toolhead>,
    present: Option<bool>,
    routingRequired: bool,
    filamentSwitchInstalled: Option<bool>)

  datatype SlotIneligibility =
    | Empty
    | WrongNozzle
    | UnknownRoute
    | MaterialTypeMismatch
    | FilamentSwitchExternal
    | AmsDisabled

  /**
   The text and colour primitives the mapping is parametric in: trimming and upper-casing
   of a type name, colour distance, payload colour, and the locale order of slot keys.
  */
  datatype Palette = Palette(
    canonicalType: string -> string,
    colorDistance: (Option<string>, Option<string>) -> Option<real>,
    payloadColor: Option<string> -> string,
    keyLe: (string, string) -> bool)

  ghost predicate OrdersKeys(palette: Palette) {
    && (forall a, b :: palette.keyLe(a, b) || palette.keyLe(b, a))
    && (forall a, b, c :: palette.keyLe(a, b) && palette.keyLe(b, c) ==> palette.keyLe(a, c))
  }

  function NormalizedType(palette: Palette, value: Option<string>): string {
    match value
    case None => ""
    case Some(text) => palette.canonicalType(text)
  }

  predicate KnownTypeMismatch(palette: Palette, left: Option<string>, right: Option<string>) {
    var l, r := NormalizedType(palette, left), NormalizedType(palette, right);
    l != "" && r != "" && l != r
  }

  /** A type name that says nothing: absent, or blank. */
  ghost predicate Untyped(palette: Palette, value: Option<string>) {
    value.None? || palette.canonicalType(value.value) == ""
  }

  /** Two known types, and not the same. */
  ghost predicate TypesDiffer(palette: Palette, a: Option<string>, b: Option<string>) {
    && !Untyped(palette, a) && !Untyped(palette, b)
    && palette.canonicalType(a.value) != palette.canonicalType(b.value)
  }

  /** Two known types that are the same, or none known on either side. */
  ghost predicate TypesAgree(palette: Palette, a: Option<string>, b: Option<string>) {
    if Untyped(palette, a) then Untyped(palette, b)
    else !Untyped(palette, b) && palette.canonicalType(a.value) == palette.canonicalType(b.value)
  }

  /** The first known switch state among the slots. */
  function SwitchInstalled(slots: seq<PrinterAmsSlot>): Option<bool> {
    if slots == [] then None
    else if slots[0].filamentSwitchInstalled.Some? then slots[0].filamentSwitchInstalled
    else SwitchInstalled(slots[1..])
  }

  lemma {:induction false} SwitchInstalledIsFirst(slots: seq<PrinterAmsSlot>)
    ensures SwitchInstalled(slots).None? <==>
            forall i | 0 <= i < |slots| :: slots[i].filamentSwitchInstalled.None?
    ensures SwitchInstalled(slots).Some? ==>
              exists i | 0 <= i < |slots| ::
                && slots[i].filamentSwitchInstalled == SwitchInstalled(slots)
                && forall j | 0 <= j < i :: slots[j].filamentSwitchInstalled.None?
  {
    if slots != [] {
      var rest := slots[1..];
      SwitchInstalledIsFirst(rest);
      assert forall i | 0 < i < |slots| :: slots[i] == rest[i - 1];
      if slots[0].filamentSwitchInstalled.None? && SwitchInstalled(rest).Some? {
        var i :| 0 <= i < |rest| && rest[i].filamentSwitchInstalled == SwitchInstalled(rest)
                 && forall j | 0 <= j < i :: rest[j].filamentSwitchInstalled.None?;
        assert slots[i + 1].filamentSwitchInstalled == SwitchInstalled(slots);
        assert forall j | 0 <= j < i + 1 :: slots[j].filamentSwitchInstalled.None?;
      }
    }
  }

  predicate HasKnownRoute(slots: seq<PrinterAmsSlot>) {
    || (exists i | 0 <= i < |slots| :: slots[i].toolhead.Some?)
    || (exists i | 0 <= i < |slots| :: slots[i].routingRequired)
  }

  /**
   A slot's filament can reach the nozzle the filament was sliced for. With a filament
   switch every routed AMS slot can; without one the slot's side must be the nozzle's, and
   a slot of unknown side will do only where no route is known or required.
  */
  ghost predicate RouteKnown(filament: ProjectFilament, slot: PrinterAmsSlot, slots: seq<PrinterAmsSlot>) {
    var installed := SwitchInstalled(slots);
    if installed == Some(true) then slot.kind.Ams? && slot.toolhead.Some?
    else
      && (slot.routingRequired ==> filament.nozzle.Some?)
      && (slot.routingRequired && slot.kind.External? ==> installed.Some?)
      && (filament.nozzle.Some? ==>
            if slot.toolhead.Some? then slot.toolhead == Some(if filament.nozzle == Some(Nozzle0) then R else L)
            else forall i | 0 <= i < |slots| :: slots[i].toolhead.None? && !slots[i].routingRequired)
  }

  function Side(nozzle: Nozzle): Toolhead {
    if nozzle.Nozzle1? then L else R
  }

  /** The routing part of `slotIneligibility`. */
  function RouteIneligibility(filament: ProjectFilament, slot: PrinterAmsSlot, slots: seq<PrinterAmsSlot>)
    : (r: Option<SlotIneligibility>)
    ensures r.None? <==> RouteKnown(filament, slot, slots)
    ensures r.Some? ==> r.value in {FilamentSwitchExternal, UnknownRoute, WrongNozzle}
    ensures r == Some(FilamentSwitchExternal) <==> SwitchInstalled(slots) == Some(true) && slot.kind.External?
    ensures r == Some(WrongNozzle) <==>
              && SwitchInstalled(slots) != Some(true)
              && !(slot.kind.External? && slot.routingRequired && SwitchInstalled(slots).None?)
              && filament.nozzle.Some? && slot.toolhead.Some?
              && slot.toolhead != Some(if filament.nozzle == Some(Nozzle0) then R else L)
  {
    var installed := SwitchInstalled(slots);
    if installed == Some(true) then
      if slot.kind.External? then Some(FilamentSwitchExternal)
      else if slot.toolhead.None? then Some(UnknownRoute)
      else None
    else if slot.routingRequired && filament.nozzle.None? then Some(UnknownRoute)
    else if slot.kind.External? && slot.routingRequired && installed.None? then Some(UnknownRoute)
    else if filament.nozzle.Some? then
      var expected := Side(filament.nozzle.value);
      if slot.toolhead.Some? && slot.toolhead.value != expected then Some(WrongNozzle)
      else if slot.toolhead.None? && HasKnownRoute(slots) then Some(UnknownRoute)
      else None
    else None
  }

  /** `slotIneligibility`: why a filament cannot use a slot, if it cannot. */
  function Ineligibility(
    palette: Palette, filament: ProjectFilament, slot: PrinterAmsSlot, slots: seq<PrinterAmsSlot>, useAms: bool)
    : (r: Option<SlotIneligibility>)
    ensures r.None? <==>
              && slot.present != Some(false)
              && (slot.kind.Ams? ==> useAms && !TypesDiffer(palette, filament.filamentType, slot.filamentType))
              && RouteKnown(filament, slot, slots)
    ensures r == Some(Empty) <==> slot.present == Some(false)
    ensures r == Some(MaterialTypeMismatch) <==>
              && slot.present != Some(false) && useAms && slot.kind.Ams? && RouteKnown(filament, slot, slots)
              && TypesDiffer(palette, filament.filamentType, slot.filamentType)
    ensures r == Some(AmsDisabled) <==> slot.present != Some(false) && !useAms && slot.kind.Ams?
  {
    if slot.present == Some(false) then Some(Empty)
    else if !useAms && slot.kind.Ams? then Some(AmsDisabled)
    else
      var route := RouteIneligibility(filament, slot, slots);
      if route.Some? then route
      else if slot.kind.Ams? && KnownTypeMismatch(palette, filament.filamentType, slot.filamentType) then
        Some(MaterialTypeMismatch)
      else None
  }

  predicate Eligible(
    palette: Palette, filament: ProjectFilament, slot: PrinterAmsSlot, slots: seq<PrinterAmsSlot>, useAms: bool)
  {
    Ineligibility(palette, filament, slot, slots, useAms).None?
  }

  // ----- Filament indices of a plate -----

  datatype PlateFilament = PlateFilament(
    filamentId: Option<string>,
    trayInfoIdx: Option<string>,
    filamentType: Option<string>,
    color: Option<string>,
    nozzleId: Option<int>,
    usedGrams: Option<real>,
    usedMeters: Option<real>)

  datatype Plate = Plate(plateId: int, filaments: seq<PlateFilament>)

  predicate IsUsed(filament: PlateFilament) {
    !(filament.usedGrams == Some(0.0) && filament.usedMeters == Some(0.0))
  }

  /** The index a filament asks for: its one-based id when that parses, else its position. */
  function WantedIndex(parseInt: string -> Option<int>, filament: PlateFilament, position: nat): nat {
    var parsed := parseInt(if filament.filamentId.Some? then filament.filamentId.value else "");
    if parsed.Some? && parsed.value > 0 then parsed.value - 1 else position
  }

  function ToProjectFilament(filament: PlateFilament, mappingIndex: nat): (r: ProjectFilament)
    ensures r.mappingIndex == mappingIndex && r.color == filament.color && r.filamentType == filament.filamentType
    ensures r.trayInfoIdx == filament.trayInfoIdx
    ensures r.nozzle == Some(Nozzle1) <==> filament.nozzleId == Some(1)
    ensures r.nozzle == Some(Nozzle0) <==> filament.nozzleId == Some(0)
  {
    ProjectFilament(mappingIndex, filament.trayInfoIdx, filament.filamentType, filament.color,
                    match filament.nozzleId
                    case Some(n) => if n == 0 then Some(Nozzle0) else if n == 1 then Some(Nozzle1) else None
                    case None => None)
  }

  /** Position `p` is kept: it is used, in range, and the first used one asking for its index. */
  ghost predicate Keeps(parseInt: string -> Option<int>, filaments: seq<PlateFilament>, p: nat)
    requires p < |filaments|
  {
    && IsUsed(filaments[p])
    && WantedIndex(parseInt, filaments[p], p) < MAX_MAPPING_LENGTH
    && forall q: nat | q < p && IsUsed(filaments[q]) ::
         WantedIndex(parseInt, filaments[q], q) != WantedIndex(parseInt, filaments[p], p)
  }

  /** The filaments at the kept positions below `n`, in plate order. */
  ghost function Kept(parseInt: string -> Option<int>, filaments: seq<PlateFilament>, n: nat): seq<ProjectFilament>
    requires n <= |filaments|
  {
    if n == 0 then []
    else Kept(parseInt, filaments, n - 1) +
         if Keeps(parseInt, filaments, n - 1)
         then [ToProjectFilament(filaments[n - 1], WantedIndex(parseInt, filaments[n - 1], n - 1))] else []
  }

  /** Something of the filament is used, or how much is not known. */
  ghost predicate Consumes(filament: PlateFilament) {
    filament.usedGrams != Some(0.0) || filament.usedMeters != Some(0.0)
  }

  /** The filament at `position` asks for index `i`: one below its id if that is positive, else its position. */
  ghost predicate AsksFor(parseInt: string -> Option<int>, filament: PlateFilament, position: nat, i: nat) {
    var id := match filament.filamentId case Some(text) => parseInt(text) case None => parseInt("");
    if id.Some? && id.value >= 1 then id.value == i + 1 else i == position
  }

  /** What the plate says of a filament, and its nozzle where that is 0 or 1. */
  ghost predicate Copies(filament: PlateFilament, r: ProjectFilament) {
    && r.trayInfoIdx == filament.trayInfoIdx && r.filamentType == filament.filamentType && r.color == filament.color
    && match r.nozzle
       case Some(Nozzle0) => filament.nozzleId == Some(0)
       case Some(Nozzle1) => filament.nozzleId == Some(1)
       case None => filament.nozzleId != Some(0) && filament.nozzleId != Some(1)
  }

  /** `r` is the filament at position `p`, which is the first to ask for its index, below 32. */
  ghost predicate StandsFor(parseInt: string -> Option<int>, filaments: seq<PlateFilament>, p: nat, r: ProjectFilament)
    requires p < |filaments|
  {
    && Consumes(filaments[p]) && Copies(filaments[p], r)
    && AsksFor(parseInt, filaments[p], p, r.mappingIndex) && r.mappingIndex < 32
    && forall q: nat | q < p && Consumes(filaments[q]) :: !AsksFor(parseInt, filaments[q], q, r.mappingIndex)
  }

  lemma AsksForWanted(parseInt: string -> Option<int>, filament: PlateFilament, position: nat, i: nat)
    ensures AsksFor(parseInt, filament, position, i) <==> WantedIndex(parseInt, filament, position) == i
    ensures Consumes(filament) <==> IsUsed(filament)
  {
  }

  lemma KeptStandsFor(parseInt: string -> Option<int>, filaments: seq<PlateFilament>, p: nat, r: ProjectFilament)
    requires p < |filaments|
    ensures StandsFor(parseInt, filaments, p, r) <==>
            Keeps(parseInt, filaments, p)
            && r == ToProjectFilament(filaments[p], WantedIndex(parseInt, filaments[p], p))
  {
    AsksForWanted(parseInt, filaments[p], p, r.mappingIndex);
    forall q: nat | q < p
      ensures AsksFor(parseInt, filaments[q], q, r.mappingIndex) <==>
              WantedIndex(parseInt, filaments[q], q) == r.mappingIndex
      ensures Consumes(filaments[q]) <==> IsUsed(filaments[q])
    {
      AsksForWanted(parseInt, filaments[q], q, r.mappingIndex);
    }
  }

  /** The kept filaments are exactly those that stand for a position, on the plate's own fields. */
  lemma {:induction false} KeptExactly(
    parseInt: string -> Option<int>, filaments: seq<PlateFilament>, n: nat, r: ProjectFilament)
    requires n <= |filaments|
    ensures r in Kept(parseInt, filaments, n) <==> exists p: nat | p < n :: StandsFor(parseInt, filaments, p, r)
  {
    if n > 0 {
      KeptExactly(parseInt, filaments, n - 1, r);
      KeptStandsFor(parseInt, filaments, n - 1, r);
    }
  }

  predicate DistinctIndices(filaments: seq<ProjectFilament>) {
    forall i, j | 0 <= i < j < |filaments| :: filaments[i].mappingIndex != filaments[j].mappingIndex
  }

  predicate IndicesInRange(filaments: seq<ProjectFilament>) {
    forall i | 0 <= i < |filaments| :: filaments[i].mappingIndex < MAX_MAPPING_LENGTH
  }

  /** `plates.find` by id. */
  function FindPlate(plates: seq<Plate>, plateId: int): Option<Plate> {
    if plates == [] then None
    else if plates[0].plateId == plateId then Some(plates[0])
    else FindPlate(plates[1..], plateId)
  }

  lemma {:induction false} FindPlateIsFirst(plates: seq<Plate>, plateId: int)
    ensures FindPlate(plates, plateId).None? <==> forall i | 0 <= i < |plates| :: plates[i].plateId != plateId
    ensures FindPlate(plates, plateId).Some? ==>
              exists i | 0 <= i < |plates| ::
                && plates[i] == FindPlate(plates, plateId).value && plates[i].plateId == plateId
                && forall j | 0 <= j < i :: plates[j].plateId != plateId
  {
    if plates != [] {
      var rest := plates[1..];
      FindPlateIsFirst(rest, plateId);
      assert forall i | 0 < i < |plates| :: plates[i] == rest[i - 1];
      if plates[0].plateId != plateId && FindPlate(rest, plateId).Some? {
        var i :| 0 <= i < |rest| && rest[i] == FindPlate(rest, plateId).value && rest[i].plateId == plateId
                 && forall j | 0 <= j < i :: rest[j].plateId != plateId;
        assert plates[i + 1] == FindPlate(plates, plateId).value;
        assert forall j | 0 <= j < i + 1 :: plates[j].plateId != plateId;
      }
    }
  }

  /** `projectFilamentsForPlate`: distinct indices below 32, first used filament wins. */
  method ProjectFilamentsForPlate(parseInt: string -> Option<int>, plates: seq<Plate>, plateId: int)
    returns (result: seq<ProjectFilament>)
    ensures FindPlate(plates, plateId).None? ==> result == []
    ensures FindPlate(plates, plateId).Some? ==>
              var filaments := FindPlate(plates, plateId).value.filaments;
              result == Kept(parseInt, filaments, |filaments|)
    ensures DistinctIndices(result) && IndicesInRange(result)
  {
    var plate := FindPlate(plates, plateId);
    if plate.None? { return []; }
    var filaments := plate.value.filaments;
    var used: set<nat> := {};
    result := [];
    for position := 0 to |filaments|
      invariant result == Kept(parseInt, filaments, position)
      invariant forall i | 0 <= i < |result| :: result[i].mappingIndex in used
      invariant forall u | u in used :: u < MAX_MAPPING_LENGTH
      invariant forall u: nat | u < MAX_MAPPING_LENGTH ::
                  u in used <==> exists q: nat | q < position && IsUsed(filaments[q]) ::
                                   WantedIndex(parseInt, filaments[q], q) == u
      invariant DistinctIndices(result) && IndicesInRange(result)
    {
      if IsUsed(filaments[position]) {
        var mappingIndex := WantedIndex(parseInt, filaments[position], position);
        if mappingIndex < MAX_MAPPING_LENGTH && mappingIndex !in used {
          used := used + {mappingIndex};
          result := result + [ToProjectFilament(filaments[position], mappingIndex)];
        }
      }
    }
  }
}
