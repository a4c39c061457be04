/** The slot engine as it runs: in place on the slot array, the detached array and its counter
    (src/inventory/usb_slots.rs, and push_detached_module of src/inventory/detect.rs). */
module UsbSlots {
  import opened Abi
  import opened Conversions
  import opened Detect
  import opened SlotCorrelation
  import opened SlotResolution
  import Capabilities

  const MAX_USB_C_SLOT_COUNT := 6

  method ComputePdFlags(pd: PdPortState) returns (flags: bv32)
    ensures flags == PdFlags(pd)
  {
    var dpAltMode := pd.altModeFlags & 0x03 != 0;
    var active := pd.activePort != 0 || dpAltMode;
    flags := 0;
    if !pd.cState.Nothing? { flags := flags | CONNECTED; }
    if pd.hasPdContract != 0 { flags := flags | HAS_PD_CONTRACT; }
    if dpAltMode { flags := flags | DISPLAY_ALT_MODE; }
    if active { flags := flags | ACTIVE; }
  }

  method PushDetachedModule(detached: array<ModuleDescriptor>, detachedCount: Byte, descriptor: ModuleDescriptor)
    returns (newCount: Byte)
    requires detached.Length == 4
    modifies detached
    ensures detached[..] == Filled(old(detached[..]), detachedCount, [descriptor])
    ensures newCount == detachedCount + Min(1, Room(detachedCount))
  {
    newCount := detachedCount;
    if detachedCount < detached.Length {
      detached[detachedCount] := descriptor;
      newCount := detachedCount + 1;
    }
  }

  /** One more card after the first `i` fills the list like the first `i + 1` at once. */
  lemma SpillOneMore(t: Table, ds: seq<ModuleDescriptor>, i: nat)
    requires |t.detached| == 4 && i < |ds|
    ensures Spill(Spill(t, ds[..i]), [ds[i]]) == Spill(t, ds[..i + 1])
  {}

  method SpillHidCards(detached: array<ModuleDescriptor>, detachedCount: Byte, cards: seq<HidObservation>)
    returns (newCount: Byte)
    requires detached.Length == 4
    modifies detached
    ensures Table([], detached[..], newCount) == Spill(Table([], old(detached[..]), detachedCount), HidSpills(cards))
  {
    newCount := detachedCount;
    ghost var start := Table([], detached[..], detachedCount);
    ghost var ds := HidSpills(cards);
    for i := 0 to |cards|
      invariant Table([], detached[..], newCount) == Spill(start, ds[..i])
    {
      SpillOneMore(start, ds, i);
      newCount := PushDetachedModule(detached, newCount,
        NewModule(ExpansionCardIdentity(cards[i].productId), Hid, Detached, Direct, true, -1, CONNECTED,
                  cards[i].vendorId, cards[i].productId, -1));
    }
    assert ds[..|cards|] == ds;
  }

  method SpillUsbCards(detached: array<ModuleDescriptor>, detachedCount: Byte, cards: seq<UsbObservation>,
                       identity: ModuleIdentity, bus: ModuleBus, confidence: Confidence, ghost pass: UsbPass)
    returns (newCount: Byte)
    requires detached.Length == 4
    requires pass.identity == identity && pass.spillBus == bus && pass.cardConfidence == confidence
    modifies detached
    ensures Table([], detached[..], newCount) == Spill(Table([], old(detached[..]), detachedCount), UsbSpills(pass, cards))
  {
    newCount := detachedCount;
    ghost var start := Table([], detached[..], detachedCount);
    ghost var ds := UsbSpills(pass, cards);
    for i := 0 to |cards|
      invariant Table([], detached[..], newCount) == Spill(start, ds[..i])
    {
      SpillOneMore(start, ds, i);
      newCount := PushDetachedModule(detached, newCount,
        NewModule(identity, bus, Detached, confidence, true, -1, CONNECTED,
                  cards[i].vendorId, cards[i].productId, -1));
    }
    assert ds[..|cards|] == ds;
  }

  /** Writes a claimed card over slot `si`, keeping the slot's PD state and flags and adding Connected. */
  method ClaimSlot(usbSlots: array<ExpansionCard>, si: nat, identity: ModuleIdentity, bus: ModuleBus,
                   confidence: Confidence, vendorId: Word, productId: Word, cardType: CardType,
                   cardConfidence: Confidence)
    requires usbSlots.Length == 6 && si < 6
    modifies usbSlots
    ensures usbSlots[..] == old(usbSlots[..])[si := MakeExpansionCard(
      NewModule(identity, bus, UsbCExpansionCardSlot, confidence, true, si, old(usbSlots[si]).flags | CONNECTED,
                vendorId, productId, -1),
      old(usbSlots[si]).pd, cardType, cardConfidence)]
  {
    var flags := usbSlots[si].flags;
    flags := flags | CONNECTED;
    var pd := usbSlots[si].pd;
    var base := NewModule(identity, bus, UsbCExpansionCardSlot, confidence, true, si, flags, vendorId, productId, -1);
    usbSlots[si] := MakeExpansionCard(base, pd, cardType, cardConfidence);
  }

  method AssignCardPass(usbSlots: array<ExpansionCard>, detached: array<ModuleDescriptor>, detachedCount: Byte,
                        pdStates: seq<Option<PdPortState>>, cards: seq<UsbObservation>, identity: ModuleIdentity,
                        bus: ModuleBus, slotConfidence: Confidence, cardConfidence: Confidence)
    returns (newCount: Byte)
    requires usbSlots.Length == |pdStates| == 6 && detached.Length == 4
    modifies usbSlots, detached
    ensures Table(usbSlots[..], detached[..], newCount)
         == RunUsb(Table(old(usbSlots[..]), old(detached[..]), detachedCount), pdStates,
                   UsbPass(identity, bus, bus, slotConfidence, cardConfidence), cards)
  {
    newCount := detachedCount;
    ghost var pass := UsbPass(identity, bus, bus, slotConfidence, cardConfidence);
    ghost var slots := usbSlots[..];
    var candidates := Candidates(pdStates, usbSlots[..]);
    if |cards| == 1 && |candidates| == 1 {
      var card := cards[0];
      var si := candidates[0];
      ClaimSlot(usbSlots, si, identity, bus, slotConfidence, card.vendorId, card.productId,
                ExpansionCardType(identity), cardConfidence);
      assert usbSlots[..] == slots[si := UsbClaim(slots[si], si, pass, card)];
    } else {
      newCount := SpillUsbCards(detached, detachedCount, cards, identity, bus, cardConfidence, pass);
    }
  }

  /** The audio pass, written out in populate_usb_slots: a claim is on the composite bus and weakly derived,
      a spilled card is on the USB bus. */
  method AssignAudioCards(usbSlots: array<ExpansionCard>, detached: array<ModuleDescriptor>, detachedCount: Byte,
                          pdStates: seq<Option<PdPortState>>, audioCards: seq<UsbObservation>)
    returns (newCount: Byte)
    requires usbSlots.Length == |pdStates| == 6 && detached.Length == 4
    modifies usbSlots, detached
    ensures Table(usbSlots[..], detached[..], newCount)
         == RunUsb(Table(old(usbSlots[..]), old(detached[..]), detachedCount), pdStates, AUDIO_PASS, audioCards)
  {
    newCount := detachedCount;
    var unassignedNonDp := Candidates(pdStates, usbSlots[..]);
    if |audioCards| == 1 && |unassignedNonDp| == 1 {
      var card := audioCards[0];
      ClaimSlot(usbSlots, unassignedNonDp[0], AudioExpansionCard, Composite, DerivedWeak, card.vendorId,
                card.productId, Audio, Direct);
    } else {
      newCount := SpillUsbCards(detached, detachedCount, audioCards, AudioExpansionCard, Usb, Direct, AUDIO_PASS);
    }
  }

  method AssignHidCards(usbSlots: array<ExpansionCard>, detached: array<ModuleDescriptor>, detachedCount: Byte,
                        pdStates: seq<Option<PdPortState>>, cards: seq<HidObservation>)
    returns (newCount: Byte)
    requires usbSlots.Length == |pdStates| == 6 && detached.Length == 4
    modifies usbSlots, detached
    ensures Table(usbSlots[..], detached[..], newCount)
         == RunHid(Table(old(usbSlots[..]), old(detached[..]), detachedCount), pdStates, cards)
  {
    newCount := detachedCount;
    var dpSlots := DpSlots(pdStates);
    if |cards| == 1 && |dpSlots| == 1 {
      var card := cards[0];
      var identity := ExpansionCardIdentity(card.productId);
      ClaimSlot(usbSlots, dpSlots[0], identity, Composite, Direct, card.vendorId, card.productId,
                ExpansionCardType(identity), Direct);
    } else {
      newCount := SpillHidCards(detached, detachedCount, cards);
    }
  }

  method InitializeSlots(usbSlots: array<ExpansionCard>, queried: seq<PdPortState>)
    returns (pdStates: seq<Option<PdPortState>>)
    requires usbSlots.Length == 6 && |queried| <= 6
    modifies usbSlots
    ensures pdStates == PdStatesOf(queried)
    ensures usbSlots[..] == InitialSlots(old(usbSlots[..]), pdStates)
  {
    pdStates := seq(6, _ => None);
    ghost var pds := PdStatesOf(queried);
    for index := 0 to |queried|
      invariant |pdStates| == 6
      invariant forall i :: 0 <= i < 6 ==> pdStates[i] == if i < index then pds[i] else None
      invariant forall i :: 0 <= i < 6 ==>
        usbSlots[i] == if i < index then InitialSlot(old(usbSlots[i]), pds, i) else old(usbSlots[i])
    {
      var pd := queried[index];
      var connected := !pd.cState.Nothing?;
      if connected {
        var flags := ComputePdFlags(pd);
        var base := NewModule(UnknownUsbCOccupant, Ec, UsbCExpansionCardSlot,
                              if pd.altModeFlags & 0x03 != 0 then DerivedStrong else DerivedWeak,
                              true, index, flags, 0, 0, -1);
        usbSlots[index] := MakeExpansionCard(base, pd, UnknownCard, UnknownConfidence);
      } else {
        usbSlots[index] := usbSlots[index].(slotIndex := index, slotKind := UsbCExpansionCardSlot, pd := pd);
      }
      pdStates := pdStates[index := Some(pd)];
    }
  }

  method ApplyCapabilities(usbSlots: array<ExpansionCard>, platform: Platform, usbCSlotCount: Byte)
    modifies usbSlots
    ensures usbSlots[..] == CapableSlots(old(usbSlots[..]), platform, usbCSlotCount)
  {
    var last := if usbCSlotCount < usbSlots.Length then usbCSlotCount else usbSlots.Length;
    for index := 0 to last
      invariant forall i :: 0 <= i < usbSlots.Length ==>
        usbSlots[i] == if i < index then WithCapability(old(usbSlots[i]), platform, i) else old(usbSlots[i])
    {
      var capability := Capabilities.SlotCapability(platform, index);
      usbSlots[index] := usbSlots[index].(capability := capability);
      if capability.known != 0 && capability.supportsPd == 0 {
        usbSlots[index] := usbSlots[index].(pd := DEFAULT_PD);
      }
    }
  }

  /** Running pass number `k` and then the later ones is running the passes from `k` on. */
  lemma NextPass(before: Table, after: Table, pds: PdStates, ps: PassList, k: nat)
    requires |pds| == |before.slots| == 6 && |before.detached| == 4 && k < |ps|
    requires after == RunUsb(before, pds, ps[k].0, ps[k].1)
    ensures |after.slots| == 6 && |after.detached| == 4
    ensures RunUsbPasses(before, pds, ps[k..]) == RunUsbPasses(after, pds, ps[k + 1..])
  {}

  lemma NextThreePasses(t0: Table, t1: Table, t2: Table, t3: Table, pds: PdStates, ps: PassList, k: nat)
    requires |pds| == |t0.slots| == 6 && |t0.detached| == 4 && k + 3 <= |ps|
    requires t1 == RunUsb(t0, pds, ps[k].0, ps[k].1)
    requires t2 == RunUsb(t1, pds, ps[k + 1].0, ps[k + 1].1)
    requires t3 == RunUsb(t2, pds, ps[k + 2].0, ps[k + 2].1)
    ensures RunUsbPasses(t0, pds, ps[k..]) == RunUsbPasses(t3, pds, ps[k + 3..])
  {
    NextPass(t0, t1, pds, ps, k);
    NextPass(t1, t2, pds, ps, k + 1);
    NextPass(t2, t3, pds, ps, k + 2);
  }

  /** Audio, storage and USB-A; `ps` is the list of passes as data. */
  method RunFirstUsbPasses(pdStates: seq<Option<PdPortState>>, d: Detections, usbSlots: array<ExpansionCard>,
                           detached: array<ModuleDescriptor>, detachedCount: Byte, ghost ps: PassList)
    returns (newCount: Byte)
    requires usbSlots.Length == |pdStates| == 6 && detached.Length == 4
    requires |ps| == 6 && ps[0] == (AUDIO_PASS, d.audio) && ps[1] == (SSD_PASS, d.ssd) && ps[2] == (USB_A_PASS, d.usbA)
    modifies usbSlots, detached
    ensures RunUsbPasses(Table(old(usbSlots[..]), old(detached[..]), detachedCount), pdStates, ps)
         == RunUsbPasses(Table(usbSlots[..], detached[..], newCount), pdStates, ps[3..])
  {
    ghost var t0 := Table(usbSlots[..], detached[..], detachedCount);
    newCount := AssignAudioCards(usbSlots, detached, detachedCount, pdStates, d.audio);
    ghost var t1 := Table(usbSlots[..], detached[..], newCount);
    newCount := AssignCardPass(usbSlots, detached, newCount, pdStates, d.ssd,
                               SsdExpansionCard, Usb, Direct, Direct);
    ghost var t2 := Table(usbSlots[..], detached[..], newCount);
    newCount := AssignCardPass(usbSlots, detached, newCount, pdStates, d.usbA,
                               UsbAExpansionCard, Usb, DerivedWeak, DerivedWeak);
    NextThreePasses(t0, t1, t2, Table(usbSlots[..], detached[..], newCount), pdStates, ps, 0);
    assert ps[0..] == ps;
  }

  /** Ethernet, SD and microSD. */
  method RunLastUsbPasses(pdStates: seq<Option<PdPortState>>, d: Detections, usbSlots: array<ExpansionCard>,
                          detached: array<ModuleDescriptor>, detachedCount: Byte, ghost ps: PassList)
    returns (newCount: Byte)
    requires usbSlots.Length == |pdStates| == 6 && detached.Length == 4
    requires |ps| == 6 && ps[3] == (ETHERNET_PASS, d.ethernet) && ps[4] == (SD_PASS, d.sd)
    requires ps[5] == (MICRO_SD_PASS, d.microSd)
    modifies usbSlots, detached
    ensures Table(usbSlots[..], detached[..], newCount)
         == RunUsbPasses(Table(old(usbSlots[..]), old(detached[..]), detachedCount), pdStates, ps[3..])
  {
    ghost var t3 := Table(usbSlots[..], detached[..], detachedCount);
    newCount := AssignCardPass(usbSlots, detached, detachedCount, pdStates, d.ethernet,
                               EthernetExpansionCard, Usb, DerivedWeak, DerivedWeak);
    ghost var t4 := Table(usbSlots[..], detached[..], newCount);
    newCount := AssignCardPass(usbSlots, detached, newCount, pdStates, d.sd,
                               SdExpansionCard, Usb, DerivedWeak, DerivedWeak);
    ghost var t5 := Table(usbSlots[..], detached[..], newCount);
    newCount := AssignCardPass(usbSlots, detached, newCount, pdStates, d.microSd,
                               MicroSdExpansionCard, Usb, DerivedWeak, DerivedWeak);
    NextThreePasses(t3, t4, t5, Table(usbSlots[..], detached[..], newCount), pdStates, ps, 3);
    assert ps[6..] == [];
  }

  /** The six USB passes in their fixed order. */
  method RunAllUsbPasses(pdStates: seq<Option<PdPortState>>, d: Detections, usbSlots: array<ExpansionCard>,
                         detached: array<ModuleDescriptor>, detachedCount: Byte)
    returns (newCount: Byte)
    requires usbSlots.Length == |pdStates| == 6 && detached.Length == 4
    modifies usbSlots, detached
    ensures Table(usbSlots[..], detached[..], newCount)
         == RunUsbPasses(Table(old(usbSlots[..]), old(detached[..]), detachedCount), pdStates, UsbPasses(d))
  {
    newCount := RunFirstUsbPasses(pdStates, d, usbSlots, detached, detachedCount, UsbPasses(d));
    newCount := RunLastUsbPasses(pdStates, d, usbSlots, detached, newCount, UsbPasses(d));
  }

  /** Queries the ports into the slots and places or spills the HID cards. */
  method RunHidStage(queried: seq<PdPortState>, d: Detections, usbSlots: array<ExpansionCard>,
                     detached: array<ModuleDescriptor>, detachedCount: Byte)
    returns (pdStates: seq<Option<PdPortState>>, newCount: Byte)
    requires usbSlots.Length == 6 && detached.Length == 4 && |queried| <= 6
    modifies usbSlots, detached
    ensures pdStates == PdStatesOf(queried)
    ensures Table(usbSlots[..], detached[..], newCount)
         == AfterHid(Table(old(usbSlots[..]), old(detached[..]), detachedCount), queried, d)
  {
    pdStates := InitializeSlots(usbSlots, queried);
    newCount := AssignHidCards(usbSlots, detached, detachedCount, pdStates, d.hid);
  }

  /** Fills the slots from the queried ports, runs the HID pass and the six USB passes in order, and applies the
      platform's capabilities. Whatever the arrays held before, the outcome is the closed form. */
  method PopulateUsbSlots(queried: seq<PdPortState>, platform: Platform, d: Detections,
                          usbSlots: array<ExpansionCard>, detached: array<ModuleDescriptor>, detachedCount: Byte)
    returns (newCount: Byte)
    requires usbSlots.Length == MAX_USB_C_SLOT_COUNT && detached.Length == 4
    requires |queried| <= MAX_USB_C_SLOT_COUNT
    modifies usbSlots, detached
    ensures Table(usbSlots[..], detached[..], newCount)
         == Resolved(Table(old(usbSlots[..]), old(detached[..]), detachedCount), queried, d, platform)
  {
    ghost var start := Table(usbSlots[..], detached[..], detachedCount);
    var pdStates;
    pdStates, newCount := RunHidStage(queried, d, usbSlots, detached, detachedCount);
    newCount := RunAllUsbPasses(pdStates, d, usbSlots, detached, newCount);
    ApplyCapabilities(usbSlots, platform, |queried|);
    PipelineIsResolved(start, queried, d, platform);
  }
}
