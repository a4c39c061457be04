/** Assembly of the module inventory (src/inventory/builder.rs). */
module Builder {
  import opened Abi
  import opened Detect
  import opened Internals
  import opened SlotCorrelation
  import opened SlotResolution
  import opened SlotLaws
  import opened SlotFields
  import UsbSlots
  import opened Bay

  datatype ModuleInventory = ModuleInventory(
    usbCSlotCount: Byte, inputTopRowCount: Byte, detachedCount: Byte,
    usbCSlot0: ExpansionCard, usbCSlot1: ExpansionCard, usbCSlot2: ExpansionCard,
    usbCSlot3: ExpansionCard, usbCSlot4: ExpansionCard, usbCSlot5: ExpansionCard,
    inputTopRow0: ModuleDescriptor, inputTopRow1: ModuleDescriptor, inputTopRow2: ModuleDescriptor,
    inputTopRow3: ModuleDescriptor, inputTopRow4: ModuleDescriptor,
    inputTouchpad: ModuleDescriptor, internalKeyboard: ModuleDescriptor, internalTouchpad: ModuleDescriptor,
    fingerprintReader: ModuleDescriptor, touchscreen: ModuleDescriptor, webcam: ModuleDescriptor,
    expansionBay: ModuleDescriptor,
    detached0: ModuleDescriptor, detached1: ModuleDescriptor, detached2: ModuleDescriptor, detached3: ModuleDescriptor)
  {
    function Slots(): seq<ExpansionCard> { [usbCSlot0, usbCSlot1, usbCSlot2, usbCSlot3, usbCSlot4, usbCSlot5] }

    function Internals(): InternalModules {
      InternalModules(inputTopRowCount, [inputTopRow0, inputTopRow1, inputTopRow2, inputTopRow3, inputTopRow4],
                      inputTouchpad, internalKeyboard, internalTouchpad, fingerprintReader, touchscreen, webcam)
    }

    function DetachedList(): seq<ModuleDescriptor> { [detached0, detached1, detached2, detached3] }
  }

  function MainboardPdPortCount(family: Option<PlatformFamily>): Byte {
    if family == Some(FrameworkDesktop) then 2 else 4
  }

  /** The PD states the EC reports for the mainboard ports, in port order. */
  function Queried(ecPort: Byte -> PdPortState, family: Option<PlatformFamily>): (q: seq<PdPortState>)
    ensures |q| == MainboardPdPortCount(family)
  {
    seq(MainboardPdPortCount(family), i requires 0 <= i < 4 => ecPort(i))
  }

  function Assemble(usbCSlotCount: Byte, detachedCount: Byte, usbSlots: seq<ExpansionCard>,
                    detached: seq<ModuleDescriptor>, m: InternalModules, expansionBay: ModuleDescriptor)
    : (inventory: ModuleInventory)
    requires |usbSlots| == 6 && |detached| == 4 && |m.topRow| == 5
    ensures inventory.Slots() == usbSlots && inventory.DetachedList() == detached && inventory.Internals() == m
    ensures inventory.usbCSlotCount == usbCSlotCount && inventory.detachedCount == detachedCount
    ensures inventory.expansionBay == expansionBay
  {
    ModuleInventory(
      usbCSlotCount, m.inputTopRowCount, detachedCount,
      usbSlots[0], usbSlots[1], usbSlots[2], usbSlots[3], usbSlots[4], usbSlots[5],
      m.topRow[0], m.topRow[1], m.topRow[2], m.topRow[3], m.topRow[4],
      m.inputTouchpad, m.internalKeyboard, m.internalTouchpad, m.fingerprintReader, m.touchscreen, m.webcam,
      expansionBay, detached[0], detached[1], detached[2], detached[3])
  }

  function PlatformOrUnknown(platform: Option<Platform>): Platform {
    if platform.Some? then platform.value else UnknownSystem
  }

  /** Every slot shows the state of the port that was queried for it, save the two slots of the Desktop. */
  predicate KeepsPdStates(slots: seq<ExpansionCard>, queried: seq<PdPortState>, platform: Platform) {
    forall i :: 0 <= i < |slots| ==>
      slots[i].pd ==
        if i < |queried| && !(platform == FrameworkDesktopAmdAiMax300 && i < 2) then queried[i] else DEFAULT_PD
  }

  /** The slot part of the inventory: default arrays, filled in place. */
  method BuildSlots(queried: seq<PdPortState>, platform: Platform, d: Detections)
    returns (usbSlots: array<ExpansionCard>, detached: array<ModuleDescriptor>, detachedCount: Byte)
    requires |queried| <= 6
    ensures usbSlots.Length == 6 && detached.Length == 4
    ensures Table(usbSlots[..], detached[..], detachedCount) == Resolved(EMPTY_TABLE, queried, d, platform)
    ensures SlotsOk(usbSlots[..], |queried|)
    ensures KeepsPdStates(usbSlots[..], queried, platform)
  {
    usbSlots := new ExpansionCard[6](_ => DEFAULT_EXPANSION_CARD);
    detached := new ModuleDescriptor[4](_ => DEFAULT_MODULE);
    assert usbSlots[..] == EMPTY_TABLE.slots && detached[..] == EMPTY_TABLE.detached;
    detachedCount := UsbSlots.PopulateUsbSlots(queried, platform, d, usbSlots, detached, 0);
    PublishedSlotsOk(queried, d, platform);
    forall i | 0 <= i < 6 { PublishedPdState(queried, d, platform, i); }
  }

  /** Slot field `i` is the slot of EC port `i`, with that port's state unless the platform is the Desktop. */
  predicate CarriesPort(slot: ExpansionCard, i: Byte, ecPort: Byte -> PdPortState, platform: Option<Platform>) {
    && slot.slotIndex == i
    && slot.pd == if platform == Some(FrameworkDesktopAmdAiMax300) && i < 2 then DEFAULT_PD else ecPort(i)
  }

  /** The numbered slot fields carry the EC's ports of the same number: two on the Desktop, four elsewhere. */
  predicate CarriesPorts(m: ModuleInventory, ecPort: Byte -> PdPortState, family: Option<PlatformFamily>,
                         platform: Option<Platform>)
  {
    && m.usbCSlotCount == (if family == Some(FrameworkDesktop) then 2 else 4)
    && CarriesPort(m.usbCSlot0, 0, ecPort, platform) && CarriesPort(m.usbCSlot1, 1, ecPort, platform)
    && (if family == Some(FrameworkDesktop) then m.usbCSlot2 == m.usbCSlot3 == DEFAULT_EXPANSION_CARD
        else CarriesPort(m.usbCSlot2, 2, ecPort, platform) && CarriesPort(m.usbCSlot3, 3, ecPort, platform))
    && m.usbCSlot4 == m.usbCSlot5 == DEFAULT_EXPANSION_CARD
  }

  /** The numbered detached fields hold the unclaimed cards in order. */
  predicate CarriesSpilled(m: ModuleInventory, spilled: seq<ModuleDescriptor>) {
    && m.detachedCount == Min(4, |spilled|)
    && m.detached0 == (if |spilled| > 0 then spilled[0] else DEFAULT_MODULE)
    && m.detached1 == (if |spilled| > 1 then spilled[1] else DEFAULT_MODULE)
    && m.detached2 == (if |spilled| > 2 then spilled[2] else DEFAULT_MODULE)
    && m.detached3 == (if |spilled| > 3 then spilled[3] else DEFAULT_MODULE)
  }

  predicate InPlace(m: ModuleDescriptor, index: I32, position: InputPosition) {
    m == DEFAULT_MODULE || (m.slotIndex == index && m.position == position)
  }

  /** Every module field holds a module of its own kind, or the default. */
  predicate ModulesInPlace(m: ModuleInventory) {
    && InPlace(m.inputTopRow0, 0, TopRow0) && InPlace(m.inputTopRow1, 1, TopRow1) && InPlace(m.inputTopRow2, 2, TopRow2)
    && InPlace(m.inputTopRow3, 3, TopRow3) && InPlace(m.inputTopRow4, 4, TopRow4)
    && InPlace(m.inputTouchpad, 0, TouchpadPosition)
    && WellReported(m.internalKeyboard, InternalKeyboard) && WellReported(m.internalTouchpad, InternalTouchpad)
    && WellReported(m.fingerprintReader, FingerprintReader) && WellReported(m.touchscreen, Touchscreen)
    && WellReported(m.webcam, Webcam)
  }

  lemma NumberedSlots(m: ModuleInventory, ecPort: Byte -> PdPortState, family: Option<PlatformFamily>,
                      platform: Option<Platform>)
    requires m.usbCSlotCount == MainboardPdPortCount(family) && SlotsOk(m.Slots(), m.usbCSlotCount)
    requires KeepsPdStates(m.Slots(), Queried(ecPort, family), PlatformOrUnknown(platform))
    ensures CarriesPorts(m, ecPort, family, platform)
  {
    var slots := m.Slots();
    forall i | 0 <= i < 6 ensures SlotOk(slots[i], i, m.usbCSlotCount) {}
    assert slots[0] == m.usbCSlot0 && slots[1] == m.usbCSlot1 && slots[2] == m.usbCSlot2;
    assert slots[3] == m.usbCSlot3 && slots[4] == m.usbCSlot4 && slots[5] == m.usbCSlot5;
  }

  lemma PrefixAndDefaults(detached: seq<ModuleDescriptor>, spilled: seq<ModuleDescriptor>, count: nat, i: nat)
    requires i < |detached| == 4 && count == Min(4, |spilled|) && detached[..count] == spilled[..count]
    requires forall j :: count <= j < 4 ==> detached[j] == DEFAULT_MODULE
    ensures detached[i] == if i < |spilled| then spilled[i] else DEFAULT_MODULE
  {
    if i < count { assert detached[..count][i] == spilled[..count][i]; }
  }

  lemma NumberedDetached(m: ModuleInventory, queried: seq<PdPortState>, d: Detections, platform: Platform)
    requires |queried| <= 6
    requires Table(m.Slots(), m.DetachedList(), m.detachedCount) == Resolved(EMPTY_TABLE, queried, d, platform)
    ensures CarriesSpilled(m, Spilled(queried, d))
  {
    DetachedIsPrefixOfSpilled(queried, d, platform);
    var detached, spilled := m.DetachedList(), Spilled(queried, d);
    PrefixAndDefaults(detached, spilled, m.detachedCount, 0);
    PrefixAndDefaults(detached, spilled, m.detachedCount, 1);
    PrefixAndDefaults(detached, spilled, m.detachedCount, 2);
    PrefixAndDefaults(detached, spilled, m.detachedCount, 3);
  }

  lemma NumberedModules(m: ModuleInventory, family: Option<PlatformFamily>, p: Probes)
    requires Reported(family, p, m.Internals())
    ensures ModulesInPlace(m)
  {
    BuiltInModulesAreWellReported(family, p, m.Internals());
    forall j: nat | j < 5 { TopRowEntriesKnowTheirPlace(family, p, j); }
    var row := m.Internals().topRow;
    assert row[0] == m.inputTopRow0 && row[1] == m.inputTopRow1 && row[2] == m.inputTopRow2;
    assert row[3] == m.inputTopRow3 && row[4] == m.inputTopRow4;
  }

  /** The inventory's numbered fields, read in order, are the slot engine's closed form on empty tables and the
      overlay of the input deck; every published slot is well formed, and the bay shows what the EC says of it. */
  method BuildModuleInventory(ecPort: Byte -> PdPortState, family: Option<PlatformFamily>,
                              smbiosPlatform: Option<Platform>, d: Detections, p: Probes,
                              bayInfo: Option<BayInfo>, gpuVendor: Option<Byte>)
    returns (inventory: ModuleInventory)
    ensures Table(inventory.Slots(), inventory.DetachedList(), inventory.detachedCount)
         == Resolved(EMPTY_TABLE, Queried(ecPort, family), d, PlatformOrUnknown(smbiosPlatform))
    ensures inventory.usbCSlotCount == MainboardPdPortCount(family)
    ensures SlotsOk(inventory.Slots(), inventory.usbCSlotCount)
    ensures Reported(family, p, inventory.Internals())
    ensures inventory.expansionBay == BayModule(bayInfo, gpuVendor)
    ensures CarriesPorts(inventory, ecPort, family, smbiosPlatform)
    ensures CarriesSpilled(inventory, Spilled(Queried(ecPort, family), d))
    ensures ModulesInPlace(inventory)
  {
    var queried := Queried(ecPort, family);
    var usbSlots, detached, detachedCount := BuildSlots(queried, PlatformOrUnknown(smbiosPlatform), d);
    var internals := DetectInternalModules(family, p);
    var expansionBay := BuildExpansionBayModule(bayInfo, gpuVendor);
    inventory := Assemble(MainboardPdPortCount(family), detachedCount, usbSlots[..], detached[..], internals,
                          expansionBay);
    NumberedSlots(inventory, ecPort, family, smbiosPlatform);
    NumberedDetached(inventory, queried, d, PlatformOrUnknown(smbiosPlatform));
    NumberedModules(inventory, family, p);
  }
}
