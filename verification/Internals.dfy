/** Built-in and input-deck modules: EC readings overlaid by USB and HID observations
    (src/inventory/internals.rs, and map_framework16_input_slot of src/inventory/detect.rs). */
module Internals {
  import opened Abi
  import opened Conversions
  import opened Detect

  datatype InputModuleType =
    | KeyboardA | KeyboardB | FullWidth | GenericA | GenericB | GenericC | Short | Reserved1 | Reserved2
    | Reserved3 | Reserved4 | Reserved5 | Reserved15 | HubBoard | Touchpad | Unplugged

  type FiveModules = s: seq<InputModuleType> | |s| == 5 witness [Short, Short, Short, Short, Short]

  datatype DeckStatus = DeckStatus(topRow: FiveModules, touchpadPresent: bool, touchpadId: Byte)

  /** The answers of the EC, the USB bus and the HID layer, each of which may be anything. The fingerprint LED
      level is asked for twice, so the two answers are independent. */
  datatype Probes = Probes(
    deck: Option<DeckStatus>, inputModules: seq<UsbObservation>, keyboardFeature: bool,
    touchpads: seq<HidObservation>, touchpadFeature: bool, touchpadBoardId: Option<Byte>,
    fingerprintFeature: bool, fpLedFirst: bool, fpLedSecond: bool,
    touchscreens: seq<HidObservation>, cameras: seq<UsbObservation>)

  datatype InternalModules = InternalModules(
    inputTopRowCount: Byte, topRow: seq<ModuleDescriptor>, inputTouchpad: ModuleDescriptor,
    internalKeyboard: ModuleDescriptor, internalTouchpad: ModuleDescriptor,
    fingerprintReader: ModuleDescriptor, touchscreen: ModuleDescriptor, webcam: ModuleDescriptor)

  /** USB port path of a top-row module to its slot; -1 for any other path. */
  function MapFramework16InputSlot(portNumbers: seq<Byte>): I32 {
    if portNumbers == [4, 2] then 0
    else if portNumbers == [4, 3] then 1
    else if portNumbers == [3, 1] then 2
    else if portNumbers == [3, 2] then 3
    else if portNumbers == [3, 3] then 4
    else -1
  }

  function TopRowPosition(index: nat): InputPosition {
    match index
    case 0 => TopRow0
    case 1 => TopRow1
    case 2 => TopRow2
    case 3 => TopRow3
    case 4 => TopRow4
    case _ => UnknownPosition
  }

  predicate Plugged(kind: InputModuleType) { !kind.Unplugged? && !kind.Short? }

  /** The latest observation of slot `j`. */
  function LastAt(modules: seq<UsbObservation>, j: nat): (r: Option<UsbObservation>)
    ensures r.None? <==> forall k :: 0 <= k < |modules| ==> modules[k].slotIndex != j
    ensures r.Some? ==> exists k :: 0 <= k < |modules| && modules[k] == r.value && r.value.slotIndex == j
                                    && forall m :: k < m < |modules| ==> modules[m].slotIndex != j
  {
    if modules == [] then None
    else
      var last := modules[|modules| - 1];
      if last.slotIndex == j then Some(last) else LastAt(modules[..|modules| - 1], j)
  }

  function DeckEntry(kind: InputModuleType, j: nat): ModuleDescriptor
    requires j < 5
  {
    NewModule(Framework16KeyboardModule, Ec, InputDeckTopRow, Direct, Plugged(kind), j,
              if Plugged(kind) then CONNECTED else 0, 0, 0, -1).(position := TopRowPosition(j))
  }

  function UsbEntry(seen: UsbObservation, j: nat): ModuleDescriptor
    requires j < 5
  {
    NewModule(Framework16TopRowIdentity(seen.productId), Usb, InputDeckTopRow, Direct, true, j, CONNECTED,
              seen.vendorId, seen.productId, -1).(position := TopRowPosition(j))
  }

  /** Top-row slot `j`: the latest USB module seen there, else the EC's deck entry, else nothing. */
  function TopRowEntry(family: Option<PlatformFamily>, p: Probes, j: nat): ModuleDescriptor
    requires j < 5
  {
    if family != Some(Framework16) then DEFAULT_MODULE
    else
      match LastAt(p.inputModules, j)
      case Some(seen) => UsbEntry(seen, j)
      case None => if p.deck.Some? then DeckEntry(p.deck.value.topRow[j], j) else DEFAULT_MODULE
  }

  function DeckBoardId(p: Probes): I32 {
    if p.deck.Some? then p.deck.value.touchpadId else -1
  }

  method OverlayInputModules(topRow: array<ModuleDescriptor>, modules: seq<UsbObservation>)
    requires topRow.Length == 5
    modifies topRow
    ensures forall j :: 0 <= j < 5 ==>
      topRow[j] == match LastAt(modules, j) case Some(m) => UsbEntry(m, j) case None => old(topRow[j])
  {
    for i := 0 to |modules|
      invariant forall j :: 0 <= j < 5 ==>
        topRow[j] == match LastAt(modules[..i], j) case Some(m) => UsbEntry(m, j) case None => old(topRow[j])
    {
      var seen := modules[i];
      assert modules[..i + 1][..i] == modules[..i];
      if seen.slotIndex < 0 || seen.slotIndex >= topRow.Length { continue; }
      topRow[seen.slotIndex] := NewModule(
        Framework16TopRowIdentity(seen.productId), Usb, InputDeckTopRow, Direct, true, seen.slotIndex,
        CONNECTED, seen.vendorId, seen.productId, -1);
      topRow[seen.slotIndex] := topRow[seen.slotIndex].(position := TopRowPosition(seen.slotIndex));
    }
    assert modules[..|modules|] == modules;
  }

  method ReadDeck(topRow: array<ModuleDescriptor>, deck: DeckStatus)
    requires topRow.Length == 5
    modifies topRow
    ensures forall j :: 0 <= j < 5 ==> topRow[j] == DeckEntry(deck.topRow[j], j)
  {
    for index := 0 to |deck.topRow|
      invariant forall j :: 0 <= j < index ==> topRow[j] == DeckEntry(deck.topRow[j], j)
    {
      var slot := deck.topRow[index];
      topRow[index] := NewModule(
        Framework16KeyboardModule, Ec, InputDeckTopRow, Direct, !slot.Unplugged? && !slot.Short?, index,
        if !slot.Unplugged? && !slot.Short? then CONNECTED else 0, 0, 0, -1);
      topRow[index] := topRow[index].(position := TopRowPosition(index));
    }
  }

  /** The deck touchpad: a HID device overrides the EC's reading but keeps its board id. */
  function DeckTouchpad(p: Probes): ModuleDescriptor {
    if p.touchpads != [] then
      NewModule(Framework16TouchpadModule, Hid, InputDeckTouchpad, Direct, true, 0, CONNECTED,
                p.touchpads[0].vendorId, p.touchpads[0].productId, DeckBoardId(p)).(position := TouchpadPosition)
    else if p.deck.Some? then
      var present := p.deck.value.touchpadPresent;
      NewModule(Framework16TouchpadModule, Ec, InputDeckTouchpad, Direct, present, 0,
                if present then CONNECTED else 0, 0, 0, DeckBoardId(p)).(position := TouchpadPosition)
    else DEFAULT_MODULE
  }

  /** What is seen of the deck touchpad: the board id is always the EC's, also under a HID device, whose ids are then
      shown; it is present when either knows it. */
  predicate DeckTouchpadShown(p: Probes, m: ModuleDescriptor) {
    && m.boardId == (if p.deck.Some? then p.deck.value.touchpadId else -1)
    && m.vendorId == (if p.touchpads != [] then p.touchpads[0].vendorId else 0)
    && m.productId == (if p.touchpads != [] then p.touchpads[0].productId else 0)
    && (m.present == 1 <==> p.touchpads != [] || (p.deck.Some? && p.deck.value.touchpadPresent))
    && (m.flags & CONNECTED != 0 <==> m.present == 1)
    && (m.bus == Hid <==> p.touchpads != [])
    && m.identity == (if p.touchpads != [] || p.deck.Some? then Framework16TouchpadModule else NoIdentity)
    && (m.identity != NoIdentity ==> m.slotKind == InputDeckTouchpad && m.confidence == Direct)
  }

  /** What is seen of top-row slot `j`: the ids of the latest USB module there, else whether the EC's deck has a
      module in it. */
  predicate TopRowShown(p: Probes, j: nat, m: ModuleDescriptor)
    requires j < 5
  {
    var seen := LastAt(p.inputModules, j);
    if seen.Some? then
      && m.confidence == Direct && m.boardId == -1
      && m.present == 1 && m.bus == Usb && m.vendorId == seen.value.vendorId && m.productId == seen.value.productId
      && m.identity == (if seen.value.productId == 0x0020 then Framework16LedMatrix else Framework16KeyboardModule)
    else if p.deck.Some? then
      && m.confidence == Direct && m.boardId == -1
      && (m.present == 1 <==> p.deck.value.topRow[j] != Unplugged && p.deck.value.topRow[j] != Short)
      && m.bus == Ec && m.vendorId == m.productId == 0 && m.identity == Framework16KeyboardModule
    else m == DEFAULT_MODULE
  }

  /** The Framework 16 branch: deck readings, then the USB overlay, then the HID touchpad. */
  method DetectInputDeck(p: Probes) returns (topRow: array<ModuleDescriptor>, inputTouchpad: ModuleDescriptor)
    ensures topRow.Length == 5 && forall j :: 0 <= j < 5 ==> topRow[j] == TopRowEntry(Some(Framework16), p, j)
    ensures inputTouchpad == DeckTouchpad(p) && DeckTouchpadShown(p, inputTouchpad)
  {
    topRow := new ModuleDescriptor[5](_ => DEFAULT_MODULE);
    inputTouchpad := DEFAULT_MODULE;
    if p.deck.Some? {
      var deck := p.deck.value;
      ReadDeck(topRow, deck);
      inputTouchpad := NewModule(
        Framework16TouchpadModule, Ec, InputDeckTouchpad, Direct, deck.touchpadPresent, 0,
        if deck.touchpadPresent then CONNECTED else 0, 0, 0, deck.touchpadId);
      inputTouchpad := inputTouchpad.(position := TouchpadPosition);
    }
    OverlayInputModules(topRow, p.inputModules);
    if p.touchpads != [] {
      var device := p.touchpads[0];
      var boardId := inputTouchpad.boardId;
      inputTouchpad := NewModule(Framework16TouchpadModule, Hid, InputDeckTouchpad, Direct, true, 0, CONNECTED,
                                 device.vendorId, device.productId, boardId);
      inputTouchpad := inputTouchpad.(position := TouchpadPosition);
    }
  }

  /** A module fixed in the case: always present, built in and connected. */
  function BuiltInModule(identity: ModuleIdentity, bus: ModuleBus, confidence: Confidence, vendorId: U32,
                         productId: U32, boardId: I32): ModuleDescriptor
  {
    ModuleDescriptor(identity, bus, InternalFixed, confidence, 1, -1, BUILT_IN | CONNECTED, vendorId, productId,
                     boardId, UnknownPosition)
  }

  /** The built-in touchpad: a HID device is direct evidence and gives the ids, the EC's feature alone is not and
      does not. A device whose ids are both zero is put on the EC bus. */
  function BuiltInTouchpad(p: Probes): ModuleDescriptor {
    var boardId: I32 := if p.touchpadBoardId.Some? then p.touchpadBoardId.value else -1;
    if p.touchpads != [] then
      var HidObservation(vendorId, productId) := p.touchpads[0];
      BuiltInModule(InternalTouchpad, if vendorId == productId == 0 then Ec else Hid, Direct, vendorId, productId,
                    boardId)
    else if p.touchpadFeature then BuiltInModule(InternalTouchpad, Ec, DerivedStrong, 0, 0, boardId)
    else DEFAULT_MODULE
  }

  function BuiltInKeyboard(p: Probes): ModuleDescriptor {
    if p.keyboardFeature then BuiltInModule(InternalKeyboard, Ec, DerivedStrong, 0, 0, -1) else DEFAULT_MODULE
  }

  /** The second answer for the LED level decides the confidence, whatever the first was. */
  function BuiltInFingerprintReader(p: Probes): ModuleDescriptor {
    if !p.fingerprintFeature && !p.fpLedFirst then DEFAULT_MODULE
    else BuiltInModule(FingerprintReader, Ec, if p.fpLedSecond then Direct else DerivedStrong, 0, 0, -1)
  }

  function BuiltInTouchscreen(p: Probes): ModuleDescriptor {
    if p.touchscreens == [] then DEFAULT_MODULE
    else BuiltInModule(Touchscreen, Hid, Direct, p.touchscreens[0].vendorId, p.touchscreens[0].productId, -1)
  }

  function BuiltInWebcam(p: Probes): ModuleDescriptor {
    if p.cameras == [] then DEFAULT_MODULE
    else BuiltInModule(Webcam, Usb, Direct, p.cameras[0].vendorId, p.cameras[0].productId, -1)
  }

  /** The built-in touchpad of the families other than Framework 16. */
  method DetectInternalTouchpad(p: Probes) returns (touchpad: ModuleDescriptor)
    ensures touchpad == BuiltInTouchpad(p)
    ensures touchpad.present == 1 <==> p.touchpadFeature || p.touchpads != []
    ensures p.touchpads != [] ==>
            && touchpad.vendorId == p.touchpads[0].vendorId && touchpad.productId == p.touchpads[0].productId
            && touchpad.confidence == Direct
    ensures touchpad.present == 1 ==>
            && touchpad.identity == InternalTouchpad && (touchpad.bus == Hid || touchpad.bus == Ec)
            && (touchpad.bus == Hid <==> touchpad.vendorId != 0 || touchpad.productId != 0)
            && touchpad.boardId == (if p.touchpadBoardId.Some? then p.touchpadBoardId.value else -1)
            && (touchpad.confidence == DerivedStrong <==> p.touchpads == [])
  {
    touchpad := DEFAULT_MODULE;
    var present := p.touchpadFeature;
    var confidence := if present then DerivedStrong else UnknownConfidence;
    var vendorId: U32 := 0;
    var productId: U32 := 0;
    var boardId: I32 := if p.touchpadBoardId.Some? then p.touchpadBoardId.value else -1;
    if p.touchpads != [] {
      present := true;
      confidence := Direct;
      vendorId := p.touchpads[0].vendorId;
      productId := p.touchpads[0].productId;
    }
    if present {
      touchpad := NewModule(
        InternalTouchpad, if vendorId != 0 || productId != 0 then Hid else Ec, InternalFixed, confidence, true,
        -1, BUILT_IN | CONNECTED, vendorId, productId, boardId);
    }
  }

  /** What is seen of the modules any family may have: each is present exactly when its detector reports it, with
      the first device's ids. */
  predicate FixedModulesShown(p: Probes, fingerprintReader: ModuleDescriptor, touchscreen: ModuleDescriptor,
                              webcam: ModuleDescriptor)
  {
    && (fingerprintReader.present == 1 <==> p.fingerprintFeature || p.fpLedFirst)
    && (fingerprintReader.present == 1 ==>
          && fingerprintReader.bus == Ec && fingerprintReader.vendorId == fingerprintReader.productId == 0
          && fingerprintReader.confidence == if p.fpLedSecond then Direct else DerivedStrong)
    && fingerprintReader.boardId == touchscreen.boardId == webcam.boardId == -1
    && (touchscreen.present == 1 <==> p.touchscreens != [])
    && (p.touchscreens != [] ==>
          && touchscreen.bus == Hid && touchscreen.confidence == Direct
          && touchscreen.vendorId == p.touchscreens[0].vendorId && touchscreen.productId == p.touchscreens[0].productId)
    && (webcam.present == 1 <==> p.cameras != [])
    && (p.cameras != [] ==>
          && webcam.bus == Usb && webcam.confidence == Direct
          && webcam.vendorId == p.cameras[0].vendorId && webcam.productId == p.cameras[0].productId)
  }

  /** Modules that may be built into any family. */
  method DetectFixedModules(p: Probes)
    returns (fingerprintReader: ModuleDescriptor, touchscreen: ModuleDescriptor, webcam: ModuleDescriptor)
    ensures fingerprintReader == BuiltInFingerprintReader(p)
    ensures touchscreen == BuiltInTouchscreen(p) && webcam == BuiltInWebcam(p)
    ensures FixedModulesShown(p, fingerprintReader, touchscreen, webcam)
  {
    fingerprintReader := DEFAULT_MODULE;
    touchscreen := DEFAULT_MODULE;
    webcam := DEFAULT_MODULE;
    if p.fingerprintFeature || p.fpLedFirst {
      fingerprintReader := NewModule(FingerprintReader, Ec, InternalFixed,
                                     if p.fpLedSecond then Direct else DerivedStrong, true, -1,
                                     BUILT_IN | CONNECTED, 0, 0, -1);
    }
    if p.touchscreens != [] {
      var device := p.touchscreens[0];
      touchscreen := NewModule(Touchscreen, Hid, InternalFixed, Direct, true, -1, BUILT_IN | CONNECTED,
                               device.vendorId, device.productId, -1);
    }
    if p.cameras != [] {
      var device := p.cameras[0];
      webcam := NewModule(Webcam, Usb, InternalFixed, Direct, true, -1, BUILT_IN | CONNECTED,
                          device.vendorId, device.productId, -1);
    }
  }

  /** What the published modules say about the probes, for every family. */
  predicate Reported(family: Option<PlatformFamily>, p: Probes, m: InternalModules) {
    var fw16 := family == Some(Framework16);
    && m.inputTopRowCount == (if fw16 then 5 else 0)
    && |m.topRow| == 5 && (forall j :: 0 <= j < 5 ==> m.topRow[j] == TopRowEntry(family, p, j))
    && m.inputTouchpad == (if fw16 then DeckTouchpad(p) else DEFAULT_MODULE)
    && m.internalKeyboard == (if fw16 then DEFAULT_MODULE else BuiltInKeyboard(p))
    && m.internalTouchpad == (if fw16 then DEFAULT_MODULE else BuiltInTouchpad(p))
    && m.fingerprintReader == BuiltInFingerprintReader(p)
    && m.touchscreen == BuiltInTouchscreen(p)
    && m.webcam == BuiltInWebcam(p)
  }

  /** A published built-in module is either wholly absent or fixed, flagged and known with confidence; ids come only
      from a device on a bus, and direct evidence is claimed for such a device or for the fingerprint reader. */
  predicate WellReported(m: ModuleDescriptor, identity: ModuleIdentity) {
    m == DEFAULT_MODULE ||
    (&& m.identity == identity && m.slotKind == InternalFixed && m.present == 1 && m.flags == BUILT_IN | CONNECTED
     && m.slotIndex == -1 && m.confidence in {Direct, DerivedStrong}
     && (m.vendorId != 0 || m.productId != 0 ==> m.bus in {Hid, Usb} && m.confidence == Direct))
  }

  lemma BuiltInModulesAreWellReported(family: Option<PlatformFamily>, p: Probes, m: InternalModules)
    requires Reported(family, p, m)
    ensures WellReported(m.internalKeyboard, InternalKeyboard) && WellReported(m.internalTouchpad, InternalTouchpad)
    ensures WellReported(m.fingerprintReader, FingerprintReader) && WellReported(m.touchscreen, Touchscreen)
    ensures WellReported(m.webcam, Webcam)
  {}

  lemma TopRowEntryIsShown(p: Probes, j: nat)
    requires j < 5
    ensures TopRowShown(p, j, TopRowEntry(Some(Framework16), p, j))
  {}

  method DetectInternalModules(family: Option<PlatformFamily>, p: Probes) returns (m: InternalModules)
    ensures Reported(family, p, m)
    ensures family == Some(Framework16) ==> DeckTouchpadShown(p, m.inputTouchpad)
    ensures family == Some(Framework16) ==> forall j :: 0 <= j < 5 ==> TopRowShown(p, j, m.topRow[j])
    ensures m.internalKeyboard.present == 1 <==> family != Some(Framework16) && p.keyboardFeature
    ensures m.internalKeyboard.present == 1 ==>
      m.internalKeyboard.bus == Ec && m.internalKeyboard.confidence == DerivedStrong && m.internalKeyboard.boardId == -1
    ensures FixedModulesShown(p, m.fingerprintReader, m.touchscreen, m.webcam)
  {
    var topRow := new ModuleDescriptor[5](_ => DEFAULT_MODULE);
    var inputTouchpad := DEFAULT_MODULE;
    var internalKeyboard := DEFAULT_MODULE;
    var internalTouchpad := DEFAULT_MODULE;
    if family == Some(Framework16) {
      topRow, inputTouchpad := DetectInputDeck(p);
    } else {
      if p.keyboardFeature {
        internalKeyboard := NewModule(InternalKeyboard, Ec, InternalFixed, DerivedStrong, true, -1,
                                      BUILT_IN | CONNECTED, 0, 0, -1);
      }
      internalTouchpad := DetectInternalTouchpad(p);
    }
    var fingerprintReader, touchscreen, webcam := DetectFixedModules(p);
    m := InternalModules(if family == Some(Framework16) then 5 else 0, topRow[..], inputTouchpad,
                         internalKeyboard, internalTouchpad, fingerprintReader, touchscreen, webcam);
    forall j: nat | j < 5 { TopRowEntryIsShown(p, j); }
  }

  /** A published top-row entry always names its own slot and position; only Framework 16 shows any. */
  lemma TopRowEntriesKnowTheirPlace(family: Option<PlatformFamily>, p: Probes, j: nat)
    requires j < 5
    ensures var e := TopRowEntry(family, p, j);
            e != DEFAULT_MODULE ==>
              && family == Some(Framework16)
              && e.slotIndex == j && e.position == [TopRow0, TopRow1, TopRow2, TopRow3, TopRow4][j]
              && e.slotKind == InputDeckTopRow
              && (e.present == 1 <==> e.flags & CONNECTED != 0)
  {}

  /** Distinct known port paths go to distinct slots, so two modules on different ports never overwrite
      one another; every path outside the table is ignored by the overlay. */
  lemma PortPathsMapInjectively(a: seq<Byte>, b: seq<Byte>)
    requires MapFramework16InputSlot(a) == MapFramework16InputSlot(b) >= 0
    ensures a == b && MapFramework16InputSlot(a) < 5
  {}

  /** The two input hubs and their ports: hub 4 holds the first two slots on its ports 2 and 3, hub 3 the other three
      on its ports 1 to 3, and every other path is outside the deck. */
  lemma PortPathsByHub(portNumbers: seq<Byte>)
    ensures MapFramework16InputSlot(portNumbers) ==
            if |portNumbers| == 2 && portNumbers[0] == 4 && 2 <= portNumbers[1] <= 3 then portNumbers[1] - 2
            else if |portNumbers| == 2 && portNumbers[0] == 3 && 1 <= portNumbers[1] <= 3 then portNumbers[1] + 1
            else -1
  {
    if |portNumbers| == 2 { assert portNumbers == [portNumbers[0], portNumbers[1]]; }
  }
}
