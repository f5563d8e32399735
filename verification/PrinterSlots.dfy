/**
 `printerAmsSlots` of frontend/app/dispatch-material-mapping.ts: the slots a printer
 reports, and why their keys are distinct.
*/
module PrinterSlots {
  import opened Basics
  import opened MaterialMapping
  import opened AutoMap
  import opened MappingPayload
  import Decimal

  datatype Support = Supported | Unsupported | Unknown

  datatype Tray = Tray(
    trayId: Option<string>,
    globalTrayId: Option<int>,
    filamentId: Option<string>,
    filamentType: Option<string>,
    color: Option<string>,
    toolhead: Option<string>,
    present: Option<bool>)

  datatype AmsUnit = AmsUnit(
    unitId: Option<string>, unitKind: Option<string>, toolhead: Option<string>, trays: seq<Tray>)

  datatype Spool = Spool(
    externalId: Option<string>,
    globalTrayId: Option<int>,
    filamentId: Option<string>,
    filamentType: Option<string>,
    color: Option<string>,
    toolhead: Option<string>,
    present: Option<bool>)

  datatype Materials = Materials(
    amsUnits: seq<AmsUnit>, externalSpools: seq<Spool>, filamentSwitchInstalled: Option<bool>)

  /** Text parsing the slots are parametric in. */
  datatype Reader = Reader(
    parseInt: string -> Option<int>,
    toolhead: string -> Option<Toolhead>,
    mixedAmsLiteGlobalTrayId: (Option<string>, int) -> Option<int>)

  /** `materialToolhead`. */
  function ReadToolhead(reader: Reader, value: Option<string>): Option<Toolhead> {
    match value
    case None => None
    case Some(text) => reader.toolhead(text)
  }

  function GlobalTrayId(reader: Reader, unit: AmsUnit, tray: Tray, amsId: int, slotId: int): int {
    if tray.globalTrayId.Some? then tray.globalTrayId.value
    else if reader.mixedAmsLiteGlobalTrayId(unit.unitKind, slotId).Some? then
      reader.mixedAmsLiteGlobalTrayId(unit.unitKind, slotId).value
    else if amsId < 64 then amsId * 4 + slotId
    else if 128 <= amsId <= 135 then amsId
    else UNMAPPED
  }

  function ConventionalRoute(infer: bool, unitId: string): Option<Toolhead> {
    if infer && unitId == "0" then Some(R) else if infer && unitId == "1" then Some(L) else None
  }

  function AmsKey(unitId: string, trayId: string): string {
    "ams:" + unitId + ":" + trayId
  }

  function ExternalKey(externalId: int): string {
    "external:" + Decimal.PrintInt(externalId)
  }

  datatype Routing = Routing(required: bool, infer: bool, switchInstalled: Option<bool>)

  function TraySlots(
    reader: Reader, routing: Routing, unit: AmsUnit, amsId: int, trays: seq<Tray>): seq<PrinterAmsSlot>
  {
    if trays == [] then []
    else
      var tray := trays[0];
      var slotId := reader.parseInt(TextOr(tray.trayId));
      (match slotId
       case None => []
       case Some(slotId) =>
         var globalTrayId := GlobalTrayId(reader, unit, tray, amsId, slotId);
         var toolhead := ReadToolhead(reader, if tray.toolhead.Some? then tray.toolhead else unit.toolhead);
         [PrinterAmsSlot(AmsKey(TextOr(unit.unitId), TextOr(tray.trayId)), Ams, amsId, slotId,
                         globalTrayId, globalTrayId, tray.filamentId, tray.filamentType, tray.color,
                         if toolhead.Some? then toolhead else ConventionalRoute(routing.infer, TextOr(unit.unitId)),
                         tray.present, routing.required, routing.switchInstalled)])
      + TraySlots(reader, routing, unit, amsId, trays[1..])
  }

  function UnitSlots(reader: Reader, routing: Routing, units: seq<AmsUnit>): seq<PrinterAmsSlot> {
    if units == [] then []
    else
      (match reader.parseInt(TextOr(units[0].unitId))
       case None => []
       case Some(amsId) => TraySlots(reader, routing, units[0], amsId, units[0].trays))
      + UnitSlots(reader, routing, units[1..])
  }

  function SpoolSlots(reader: Reader, routing: Routing, spools: seq<Spool>): seq<PrinterAmsSlot> {
    if spools == [] then []
    else
      var spool := spools[0];
      (match reader.parseInt(TextOr(spool.externalId))
       case None => []
       case Some(externalId) =>
         var toolhead := ReadToolhead(reader, spool.toolhead);
         var inferred := if externalId == 254 then Some(L) else if externalId == 255 then Some(R) else None;
         [PrinterAmsSlot(ExternalKey(externalId), External, externalId, 0,
                         if spool.globalTrayId.Some? then spool.globalTrayId.value else externalId,
                         UNMAPPED, spool.filamentId, spool.filamentType, spool.color,
                         if toolhead.Some? then toolhead else inferred,
                         spool.present, routing.required, routing.switchInstalled)])
      + SpoolSlots(reader, routing, spools[1..])
  }

  function CountConventional(units: seq<AmsUnit>): nat {
    if units == [] then 0
    else (if units[0].unitId == Some("0") || units[0].unitId == Some("1") then 1 else 0) + CountConventional(units[1..])
  }

  function PrinterAmsSlots(reader: Reader, dualNozzle: Support, materials: Option<Materials>): seq<PrinterAmsSlot> {
    match materials
    case None => []
    case Some(m) =>
      var routing := Routing(
        !dualNozzle.Unsupported?,
        dualNozzle.Supported? && m.filamentSwitchInstalled != Some(true) && CountConventional(m.amsUnits) == 2,
        m.filamentSwitchInstalled);
      UnitSlots(reader, routing, m.amsUnits) + SpoolSlots(reader, routing, m.externalSpools)
  }

  // ----- Keys -----

  /** A unit id that cannot be confused with a unit id and part of a tray id. */
  predicate PlainId(id: string) {
    ':' !in id
  }

  lemma {:induction false} PrefixUpToColon(a: string, b: string, x: string, y: string)
    requires PlainId(a) && PlainId(b) && a + ":" + x == b + ":" + y
    ensures a == b && x == y
  {
    var s := a + ":" + x;
    assert s[|a|] == ':' && s[|b|] == ':';
    assert forall i | 0 <= i < |a| :: s[i] == a[i] && a[i] in a;
    assert forall i | 0 <= i < |b| :: s[i] == b[i] && b[i] in b;
    assert s[..|a|] == a && s[..|b|] == b;
    assert s[|a| + 1..] == x && s[|b| + 1..] == y;
  }

  lemma AmsKeyInjective(u: string, t: string, v: string, w: string)
    requires PlainId(u) && PlainId(v) && AmsKey(u, t) == AmsKey(v, w)
    ensures u == v && t == w
  {
    assert AmsKey(u, t)[4..] == u + ":" + t && AmsKey(v, w)[4..] == v + ":" + w;
    PrefixUpToColon(u, v, t, w);
  }

  lemma ExternalKeyInjective(a: int, b: int)
    requires ExternalKey(a) == ExternalKey(b)
    ensures a == b
  {
    assert ExternalKey(a)[9..] == Decimal.PrintInt(a) && ExternalKey(b)[9..] == Decimal.PrintInt(b);
    Decimal.PrintIntInjective(a, b);
  }

  ghost predicate DistinctTrays(trays: seq<Tray>) {
    forall i, j | 0 <= i < j < |trays| :: TextOr(trays[i].trayId) != TextOr(trays[j].trayId)
  }

  ghost predicate DistinctUnits(units: seq<AmsUnit>) {
    && (forall i, j | 0 <= i < j < |units| :: TextOr(units[i].unitId) != TextOr(units[j].unitId))
    && (forall i | 0 <= i < |units| :: PlainId(TextOr(units[i].unitId)) && DistinctTrays(units[i].trays))
  }

  ghost predicate DistinctSpools(reader: Reader, spools: seq<Spool>) {
    forall i, j | 0 <= i < j < |spools| && reader.parseInt(TextOr(spools[i].externalId)).Some? ::
      reader.parseInt(TextOr(spools[i].externalId)) != reader.parseInt(TextOr(spools[j].externalId))
  }

  lemma AppendDistinct(a: seq<PrinterAmsSlot>, b: seq<PrinterAmsSlot>)
    requires DistinctKeys(a) && DistinctKeys(b)
    requires forall i, j | 0 <= i < |a| && 0 <= j < |b| :: a[i].key != b[j].key
    ensures DistinctKeys(a + b)
  {
  }

  /** `key` is the key of one of the trays of a unit. */
  ghost predicate IsTrayKey(unitId: string, trays: seq<Tray>, key: string) {
    exists t | 0 <= t < |trays| :: key == AmsKey(unitId, TextOr(trays[t].trayId))
  }

  lemma LaterTrayKey(unitId: string, trays: seq<Tray>, key: string)
    requires PlainId(unitId) && trays != [] && DistinctTrays(trays) && IsTrayKey(unitId, trays[1..], key)
    ensures IsTrayKey(unitId, trays, key) && key != AmsKey(unitId, TextOr(trays[0].trayId))
  {
    var t :| 0 <= t < |trays[1..]| && key == AmsKey(unitId, TextOr(trays[1..][t].trayId));
    assert trays[t + 1] == trays[1..][t];
    if key == AmsKey(unitId, TextOr(trays[0].trayId)) {
      AmsKeyInjective(unitId, TextOr(trays[t + 1].trayId), unitId, TextOr(trays[0].trayId));
    }
  }

  lemma {:induction false} TrayKeys(reader: Reader, routing: Routing, unit: AmsUnit, amsId: int, trays: seq<Tray>)
    requires PlainId(TextOr(unit.unitId)) && DistinctTrays(trays)
    ensures var slots := TraySlots(reader, routing, unit, amsId, trays);
            DistinctKeys(slots) && forall i | 0 <= i < |slots| :: IsTrayKey(TextOr(unit.unitId), trays, slots[i].key)
  {
    if trays != [] {
      TrayKeys(reader, routing, unit, amsId, trays[1..]);
      var rest := TraySlots(reader, routing, unit, amsId, trays[1..]);
      forall i | 0 <= i < |rest|
        ensures IsTrayKey(TextOr(unit.unitId), trays, rest[i].key)
        ensures rest[i].key != AmsKey(TextOr(unit.unitId), TextOr(trays[0].trayId))
      {
        LaterTrayKey(TextOr(unit.unitId), trays, rest[i].key);
      }
      if reader.parseInt(TextOr(trays[0].trayId)).Some? {
        var slots := TraySlots(reader, routing, unit, amsId, trays);
        assert slots == [slots[0]] + rest;
        AppendDistinct([slots[0]], rest);
      }
    }
  }

  /** `key` is an AMS key of one of the units. */
  ghost predicate IsUnitKey(units: seq<AmsUnit>, key: string) {
    exists u | 0 <= u < |units| :: IsTrayKey(TextOr(units[u].unitId), units[u].trays, key)
  }

  lemma LaterUnitKey(units: seq<AmsUnit>, key: string)
    requires units != [] && DistinctUnits(units) && IsUnitKey(units[1..], key)
    ensures IsUnitKey(units, key) && !IsTrayKey(TextOr(units[0].unitId), units[0].trays, key)
  {
    var u :| 0 <= u < |units[1..]| && IsTrayKey(TextOr(units[1..][u].unitId), units[1..][u].trays, key);
    var unit := units[u + 1];
    assert unit == units[1..][u];
    assert IsTrayKey(TextOr(unit.unitId), unit.trays, key);
    if IsTrayKey(TextOr(units[0].unitId), units[0].trays, key) {
      var t :| 0 <= t < |units[0].trays| && key == AmsKey(TextOr(units[0].unitId), TextOr(units[0].trays[t].trayId));
      var w :| 0 <= w < |unit.trays| && key == AmsKey(TextOr(unit.unitId), TextOr(unit.trays[w].trayId));
      AmsKeyInjective(
        TextOr(units[0].unitId), TextOr(units[0].trays[t].trayId), TextOr(unit.unitId), TextOr(unit.trays[w].trayId));
    }
  }

  lemma {:induction false} UnitKeys(reader: Reader, routing: Routing, units: seq<AmsUnit>)
    requires DistinctUnits(units)
    ensures var slots := UnitSlots(reader, routing, units);
            DistinctKeys(slots) && forall i | 0 <= i < |slots| :: IsUnitKey(units, slots[i].key)
  {
    if units != [] {
      UnitKeys(reader, routing, units[1..]);
      var rest := UnitSlots(reader, routing, units[1..]);
      forall i | 0 <= i < |rest|
        ensures IsUnitKey(units, rest[i].key) && !IsTrayKey(TextOr(units[0].unitId), units[0].trays, rest[i].key)
      {
        LaterUnitKey(units, rest[i].key);
      }
      match reader.parseInt(TextOr(units[0].unitId))
      case None =>
      case Some(amsId) =>
        TrayKeys(reader, routing, units[0], amsId, units[0].trays);
        AppendDistinct(TraySlots(reader, routing, units[0], amsId, units[0].trays), rest);
    }
  }

  /** `key` is the key of one of the spools. */
  ghost predicate IsSpoolKey(reader: Reader, spools: seq<Spool>, key: string) {
    exists s | 0 <= s < |spools| ::
      && reader.parseInt(TextOr(spools[s].externalId)).Some?
      && key == ExternalKey(reader.parseInt(TextOr(spools[s].externalId)).value)
  }

  lemma LaterSpoolKey(reader: Reader, spools: seq<Spool>, key: string)
    requires spools != [] && DistinctSpools(reader, spools) && IsSpoolKey(reader, spools[1..], key)
    ensures IsSpoolKey(reader, spools, key)
    ensures reader.parseInt(TextOr(spools[0].externalId)).Some? ==>
              key != ExternalKey(reader.parseInt(TextOr(spools[0].externalId)).value)
  {
    var s :| 0 <= s < |spools[1..]| && reader.parseInt(TextOr(spools[1..][s].externalId)).Some?
             && key == ExternalKey(reader.parseInt(TextOr(spools[1..][s].externalId)).value);
    assert spools[s + 1] == spools[1..][s];
    var head := reader.parseInt(TextOr(spools[0].externalId));
    if head.Some? && key == ExternalKey(head.value) {
      ExternalKeyInjective(head.value, reader.parseInt(TextOr(spools[s + 1].externalId)).value);
    }
  }

  lemma {:induction false} SpoolKeys(reader: Reader, routing: Routing, spools: seq<Spool>)
    requires DistinctSpools(reader, spools)
    ensures var slots := SpoolSlots(reader, routing, spools);
            DistinctKeys(slots) && forall i | 0 <= i < |slots| :: IsSpoolKey(reader, spools, slots[i].key)
  {
    if spools != [] {
      SpoolKeys(reader, routing, spools[1..]);
      var rest := SpoolSlots(reader, routing, spools[1..]);
      forall i | 0 <= i < |rest|
        ensures IsSpoolKey(reader, spools, rest[i].key)
        ensures reader.parseInt(TextOr(spools[0].externalId)).Some? ==>
                  rest[i].key != ExternalKey(reader.parseInt(TextOr(spools[0].externalId)).value)
      {
        LaterSpoolKey(reader, spools, rest[i].key);
      }
      if reader.parseInt(TextOr(spools[0].externalId)).Some? {
        var slots := SpoolSlots(reader, routing, spools);
        assert slots == [slots[0]] + rest;
        AppendDistinct([slots[0]], rest);
      }
    }
  }

  /**
   The hypothesis of the validity theorem holds for every printer report whose unit, tray
   and spool ids do not repeat and whose unit ids contain no colon.
  */
  lemma PrinterSlotKeysAreDistinct(reader: Reader, dualNozzle: Support, materials: Materials)
    requires DistinctUnits(materials.amsUnits) && DistinctSpools(reader, materials.externalSpools)
    ensures DistinctKeys(PrinterAmsSlots(reader, dualNozzle, Some(materials)))
  {
    var routing := Routing(
      !dualNozzle.Unsupported?,
      dualNozzle.Supported? && materials.filamentSwitchInstalled != Some(true)
      && CountConventional(materials.amsUnits) == 2,
      materials.filamentSwitchInstalled);
    UnitKeys(reader, routing, materials.amsUnits);
    SpoolKeys(reader, routing, materials.externalSpools);
    var ams := UnitSlots(reader, routing, materials.amsUnits);
    var external := SpoolSlots(reader, routing, materials.externalSpools);
    forall i, j | 0 <= i < |ams| && 0 <= j < |external|
      ensures ams[i].key != external[j].key
    {
      assert ams[i].key[0] == 'a' && external[j].key[0] == 'e';
    }
    AppendDistinct(ams, external);
  }

  // ----- What the slots say -----

  /** The tray number when the report gives none: four per unit below 64, one per unit from 128 to 135. */
  ghost predicate IsTrayNumber(amsId: int, slotId: int, number: int) {
    && (amsId < 64 ==> number == 4 * amsId + slotId)
    && (64 <= amsId < 128 || 135 < amsId ==> number == -1)
    && (128 <= amsId <= 135 ==> number == amsId)
  }

  /** The side the report states, else the one given by convention. */
  ghost predicate IsSide(
    reader: Reader, stated: Option<string>, conventional: Option<Toolhead>, side: Option<Toolhead>)
  {
    match stated
    case Some(text) => side == if reader.toolhead(text) == None then conventional else reader.toolhead(text)
    case None => side == conventional
  }

  ghost predicate SharesRouting(routing: Routing, slot: PrinterAmsSlot) {
    slot.routingRequired == routing.required && slot.filamentSwitchInstalled == routing.switchInstalled
  }

  /** `slot` is the slot of a tray: its ids, tray number, contents and side. */
  ghost predicate ShowsTray(reader: Reader, routing: Routing, unit: AmsUnit, tray: Tray, slot: PrinterAmsSlot) {
    && slot.kind == Ams && slot.key == "ams:" + TextOr(unit.unitId) + ":" + TextOr(tray.trayId)
    && reader.parseInt(TextOr(unit.unitId)) == Some(slot.amsId)
    && reader.parseInt(TextOr(tray.trayId)) == Some(slot.slotId)
    && slot.legacyTrayId == slot.globalTrayId
    && (match (tray.globalTrayId, reader.mixedAmsLiteGlobalTrayId(unit.unitKind, slot.slotId))
        case (Some(id), _) => slot.globalTrayId == id
        case (None, Some(id)) => slot.globalTrayId == id
        case (None, None) => IsTrayNumber(slot.amsId, slot.slotId, slot.globalTrayId))
    && slot.filamentId == tray.filamentId && slot.filamentType == tray.filamentType
    && slot.color == tray.color && slot.present == tray.present
    && IsSide(reader, if tray.toolhead == None then unit.toolhead else tray.toolhead,
              if !routing.infer then None
              else if unit.unitId == Some("0") then Some(R) else if unit.unitId == Some("1") then Some(L) else None,
              slot.toolhead)
    && SharesRouting(routing, slot)
  }

  /** `slot` is the slot of an external spool; 254 is the left one and 255 the right one. */
  ghost predicate ShowsSpool(reader: Reader, routing: Routing, spool: Spool, slot: PrinterAmsSlot) {
    && slot.kind == External && slot.key == "external:" + Decimal.PrintInt(slot.amsId)
    && reader.parseInt(TextOr(spool.externalId)) == Some(slot.amsId) && slot.slotId == 0
    && slot.legacyTrayId == -1
    && (match spool.globalTrayId
        case Some(id) => slot.globalTrayId == id
        case None => slot.globalTrayId == slot.amsId)
    && slot.filamentId == spool.filamentId && slot.filamentType == spool.filamentType
    && slot.color == spool.color && slot.present == spool.present
    && IsSide(reader, spool.toolhead,
              if slot.amsId == 254 then Some(L) else if slot.amsId == 255 then Some(R) else None, slot.toolhead)
    && SharesRouting(routing, slot)
  }

  lemma {:induction false} TraySlotsExactly(
    reader: Reader, routing: Routing, unit: AmsUnit, amsId: int, trays: seq<Tray>, slot: PrinterAmsSlot)
    requires reader.parseInt(TextOr(unit.unitId)) == Some(amsId)
    ensures slot in TraySlots(reader, routing, unit, amsId, trays) <==>
            exists t | 0 <= t < |trays| :: ShowsTray(reader, routing, unit, trays[t], slot)
  {
    if trays != [] {
      TraySlotsExactly(reader, routing, unit, amsId, trays[1..], slot);
      assert trays == [trays[0]] + trays[1..];
      FirstTrayExactly(reader, routing, unit, amsId, trays, slot);
    }
  }

  lemma FirstTrayExactly(
    reader: Reader, routing: Routing, unit: AmsUnit, amsId: int, trays: seq<Tray>, slot: PrinterAmsSlot)
    requires trays != [] && reader.parseInt(TextOr(unit.unitId)) == Some(amsId)
    ensures slot in TraySlots(reader, routing, unit, amsId, trays) <==>
            ShowsTray(reader, routing, unit, trays[0], slot)
            || slot in TraySlots(reader, routing, unit, amsId, trays[1..])
  {
  }

  /** `slot` is the slot of one of the trays of one of the units. */
  ghost predicate ShowsUnits(reader: Reader, routing: Routing, units: seq<AmsUnit>, slot: PrinterAmsSlot) {
    exists u, t | 0 <= u < |units| && 0 <= t < |units[u].trays| ::
      ShowsTray(reader, routing, units[u], units[u].trays[t], slot)
  }

  lemma {:induction false} UnitSlotsExactly(
    reader: Reader, routing: Routing, units: seq<AmsUnit>, slot: PrinterAmsSlot)
    ensures slot in UnitSlots(reader, routing, units) <==> ShowsUnits(reader, routing, units, slot)
  {
    if units != [] {
      var rest := units[1..];
      UnitSlotsExactly(reader, routing, rest, slot);
      if reader.parseInt(TextOr(units[0].unitId)).Some? {
        TraySlotsExactly(
          reader, routing, units[0], reader.parseInt(TextOr(units[0].unitId)).value, units[0].trays, slot);
      }
      LaterUnitsShow(reader, routing, units, slot);
    }
  }

  lemma LaterUnitsShow(reader: Reader, routing: Routing, units: seq<AmsUnit>, slot: PrinterAmsSlot)
    requires units != []
    ensures ShowsUnits(reader, routing, units, slot) <==>
            || (exists t | 0 <= t < |units[0].trays| ::
                  ShowsTray(reader, routing, units[0], units[0].trays[t], slot))
            || ShowsUnits(reader, routing, units[1..], slot)
  {
    var rest := units[1..];
    if u, t :| 0 <= u < |units| && 0 <= t < |units[u].trays|
               && ShowsTray(reader, routing, units[u], units[u].trays[t], slot) {
      assert u > 0 ==> rest[u - 1] == units[u];
    }
    if u, t :| 0 <= u < |rest| && 0 <= t < |rest[u].trays|
               && ShowsTray(reader, routing, rest[u], rest[u].trays[t], slot) {
      assert units[u + 1] == rest[u];
    }
  }

  lemma {:induction false} SpoolSlotsExactly(
    reader: Reader, routing: Routing, spools: seq<Spool>, slot: PrinterAmsSlot)
    ensures slot in SpoolSlots(reader, routing, spools) <==>
            exists s | 0 <= s < |spools| :: ShowsSpool(reader, routing, spools[s], slot)
  {
    if spools != [] {
      SpoolSlotsExactly(reader, routing, spools[1..], slot);
      assert spools == [spools[0]] + spools[1..];
      FirstSpoolExactly(reader, routing, spools, slot);
    }
  }

  lemma FirstSpoolExactly(reader: Reader, routing: Routing, spools: seq<Spool>, slot: PrinterAmsSlot)
    requires spools != []
    ensures slot in SpoolSlots(reader, routing, spools) <==>
            ShowsSpool(reader, routing, spools[0], slot) || slot in SpoolSlots(reader, routing, spools[1..])
  {
  }

  /** The units that the convention knows: those with id 0 or 1. */
  ghost function ConventionalUnits(units: seq<AmsUnit>): set<nat> {
    set u: nat | u < |units| && (units[u].unitId == Some("0") || units[u].unitId == Some("1"))
  }

  lemma {:induction false} CountsConventionalUnits(units: seq<AmsUnit>, n: nat)
    requires n <= |units|
    ensures CountConventional(units[n..]) == |set u | u in ConventionalUnits(units) && u >= n|
    decreases |units| - n
  {
    var from := set u | u in ConventionalUnits(units) && u >= n;
    if n < |units| {
      CountsConventionalUnits(units, n + 1);
      var later := set u | u in ConventionalUnits(units) && u >= n + 1;
      assert units[n..][0] == units[n] && units[n..][1..] == units[n + 1..];
      assert from == if n in ConventionalUnits(units) then later + {n} else later;
    } else {
      assert from == {};
    }
  }

  /** How a printer's slots are routed: sides are given by convention on dual-nozzle printers with units 0 and 1. */
  ghost function RoutingOf(dualNozzle: Support, m: Materials): Routing {
    Routing(dualNozzle != Unsupported,
            dualNozzle == Supported && m.filamentSwitchInstalled != Some(true)
            && |ConventionalUnits(m.amsUnits)| == 2,
            m.filamentSwitchInstalled)
  }

  /**
   The slots of a printer are exactly those of the trays and spools it reports whose ids are
   numbers, each with its own tray number, contents and side; without a report there are none.
  */
  lemma SlotsShowReport(reader: Reader, dualNozzle: Support, materials: Option<Materials>, slot: PrinterAmsSlot)
    ensures slot in PrinterAmsSlots(reader, dualNozzle, materials) <==>
            exists m | materials == Some(m) ::
              || ShowsUnits(reader, RoutingOf(dualNozzle, m), m.amsUnits, slot)
              || (exists s | 0 <= s < |m.externalSpools| ::
                    ShowsSpool(reader, RoutingOf(dualNozzle, m), m.externalSpools[s], slot))
  {
    if materials.Some? {
      var m := materials.value;
      var units := m.amsUnits;
      CountsConventionalUnits(units, 0);
      assert units[0..] == units && (set u | u in ConventionalUnits(units) && u >= 0) == ConventionalUnits(units);
      UnitSlotsExactly(reader, RoutingOf(dualNozzle, m), units, slot);
      SpoolSlotsExactly(reader, RoutingOf(dualNozzle, m), m.externalSpools, slot);
    }
  }

  // ----- A report that repeats a tray -----

  /** One AMS unit that lists a tray twice, the second time as absent. */
  function RepeatedTray(unitId: string, tray: Tray): Materials {
    Materials([AmsUnit(Some(unitId), None, None, [tray, tray.(present := Some(false))])], [], None)
  }

  /** Its two slots have one key, and only the first is there. */
  lemma RepeatedTraySlots(reader: Reader, unitId: string, tray: Tray)
    requires reader.parseInt(unitId).Some? && reader.parseInt(TextOr(tray.trayId)).Some?
    ensures var slots := PrinterAmsSlots(reader, Unsupported, Some(RepeatedTray(unitId, tray)));
            && |slots| == 2 && slots[1] == slots[0].(present := Some(false))
            && slots[0].key == AmsKey(unitId, TextOr(tray.trayId)) && slots[0].kind.Ams?
            && slots[0].present == tray.present && slots[0].filamentType == tray.filamentType
            && !slots[0].routingRequired && slots[0].filamentSwitchInstalled.None?
  {
    var materials := RepeatedTray(unitId, tray);
    var unit := materials.amsUnits[0];
    var routing := Routing(false, false, None);
    var amsId := reader.parseInt(unitId).value;
    assert unit.trays[1..][1..] == [] && materials.amsUnits[1..] == [];
    assert unit.trays[1..][0] == tray.(present := Some(false));
    var second := TraySlots(reader, routing, unit, amsId, unit.trays[1..]);
    assert TraySlots(reader, routing, unit, amsId, []) == [] && |second| == 1;
    var both := TraySlots(reader, routing, unit, amsId, unit.trays);
    assert both == [both[0]] + second;
    assert UnitSlots(reader, routing, materials.amsUnits) == both;
    assert SpoolSlots(reader, routing, materials.externalSpools) == [];
  }

  /**
   For every such report and every unrouted filament of the tray's type, the filament has a
   compatible slot and an automatic choice, and the payload drops it and is not valid.
  */
  lemma RepeatedTrayDropsChoice(
    palette: Palette, reader: Reader, unitId: string, tray: Tray, f: ProjectFilament, p: Payload)
    requires reader.parseInt(unitId).Some? && reader.parseInt(TextOr(tray.trayId)).Some?
    requires tray.present != Some(false) && f.nozzle.None?
    requires NormalizedType(palette, f.filamentType) == NormalizedType(palette, tray.filamentType)
    requires Describes(
               AutomaticRequest(
                 palette, [f], PrinterAmsSlots(reader, Unsupported, Some(RepeatedTray(unitId, tray))), true), p)
    ensures var q := AutomaticRequest(
                       palette, [f], PrinterAmsSlots(reader, Unsupported, Some(RepeatedTray(unitId, tray))), true);
            && HasCompatibleSlot(q, 0) && f.mappingIndex in q.selections
            && Chosen(q, f.mappingIndex).None? && !p.mappingValid
  {
    var slots := PrinterAmsSlots(reader, Unsupported, Some(RepeatedTray(unitId, tray)));
    RepeatedTraySlots(reader, unitId, tray);
    assert slots == [slots[0], slots[1]];
    assert SwitchInstalled(slots[1..]) == None by { assert slots[1..][1..] == []; }
    assert SwitchInstalled(slots) == None;
    DuplicateKeyDropsChoice(palette, f, slots[0], slots[1], true);
    var q := AutomaticRequest(palette, [f], slots, true);
    assert q.filaments[0] == f;
  }
}
