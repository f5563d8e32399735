/**
 The initial mapping of frontend/app/use-dispatch-material-mapping.ts: plate metadata and
 a printer report in, automatic selections and their payload out.
*/
module DispatchMapping {
  import opened Basics
  import opened MaterialMapping
  import opened AutoMap
  import opened MappingPayload
  import opened PrinterSlots

  ghost predicate EveryFilamentHasSlot(
    palette: Palette, filaments: seq<ProjectFilament>, slots: seq<PrinterAmsSlot>, useAms: bool)
  {
    forall f: nat | f < |filaments| :: HasSlot(palette, filaments[f], slots, useAms)
  }

  lemma ValidityOfMapping(q: Request, p: Payload)
    requires DistinctKeys(q.slots) && DistinctIndices(q.filaments) && Describes(q, p)
    requires q.selections == AutoSelections(CompatiblePairs(q.palette, q.filaments, q.slots, q.useAms))
    ensures p.mappingValid <==> EveryFilamentHasSlot(q.palette, q.filaments, q.slots, q.useAms)
  {
    AutomaticPayloadValidity(q, p);
    assert forall f: nat | f < |q.filaments| ::
             HasCompatibleSlot(q, f) <==> HasSlot(q.palette, q.filaments[f], q.slots, q.useAms);
  }

  /** The filaments of a plate with their indices; an unknown plate has none. */
  ghost function PlateFilaments(
    parseInt: string -> Option<int>, plates: seq<Plate>, plateId: int): seq<ProjectFilament>
  {
    match FindPlate(plates, plateId)
    case None => []
    case Some(plate) => Kept(parseInt, plate.filaments, |plate.filaments|)
  }

  /** The ids of a printer report do not repeat; a printer without one has none to repeat. */
  ghost predicate DistinctIds(reader: Reader, materials: Option<Materials>) {
    materials.Some? ==>
      DistinctUnits(materials.value.amsUnits) && DistinctSpools(reader, materials.value.externalSpools)
  }

  lemma DistinctIdsGiveDistinctKeys(reader: Reader, dualNozzle: Support, materials: Option<Materials>)
    requires DistinctIds(reader, materials)
    ensures DistinctKeys(PrinterAmsSlots(reader, dualNozzle, materials))
  {
    if materials.Some? {
      PrinterSlotKeysAreDistinct(reader, dualNozzle, materials.value);
    }
  }

  /**
   From plate and printer to payload. The payload describes the automatic selection of the
   plate's filaments among the printer's slots; its length is one the hub accepts; and, when
   the report's ids do not repeat, it is valid exactly when every filament of the plate has
   a compatible slot.
  */
  method InitialMapping(
    palette: Palette, reader: Reader, plates: seq<Plate>, plateId: int,
    dualNozzle: Support, materials: Option<Materials>, useAms: bool)
    returns (filaments: seq<ProjectFilament>, slots: seq<PrinterAmsSlot>, payload: Payload)
    ensures filaments == PlateFilaments(reader.parseInt, plates, plateId)
    ensures slots == PrinterAmsSlots(reader, dualNozzle, materials)
    ensures Describes(AutomaticRequest(palette, filaments, slots, useAms), payload)
    ensures |payload.amsMapping| <= 32
    ensures DistinctIds(reader, materials) ==>
              (payload.mappingValid <==> EveryFilamentHasSlot(palette, filaments, slots, useAms))
  {
    filaments := ProjectFilamentsForPlate(reader.parseInt, plates, plateId);
    slots := PrinterAmsSlots(reader, dualNozzle, materials);
    var selections := AutoMapSlotSelections(palette, filaments, slots, useAms);
    var q := Request(palette, filaments, slots, selections, useAms);
    payload := MaterialMappingPayload(q);
    PayloadFitsHub(q, payload);
    if DistinctIds(reader, materials) {
      DistinctIdsGiveDistinctKeys(reader, dualNozzle, materials);
      ValidityOfMapping(q, payload);
    }
  }
}
