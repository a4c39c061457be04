/** Laws of the slot engine: what every pass keeps, what happens to the flags, that no card is lost or
    duplicated, and where the written notes and the code part ways. */
module SlotLaws {
  import opened Abi
  import opened Conversions
  import opened Detect
  import opened SlotCorrelation
  import opened SlotResolution
  import Capabilities

  /** The tables the inventory builder starts from. */
  const EMPTY_TABLE: Table :=
    Table(seq(6, _ => DEFAULT_EXPANSION_CARD), seq(4, _ => DEFAULT_MODULE), 0)

  // ----- the slot invariant -----

  predicate SlotOk(slot: ExpansionCard, i: nat, count: nat) {
    && slot.present == (if slot.identity == NoIdentity then 0 else 1)
    && (slot.flags & CONNECTED != 0 <==> slot.identity != NoIdentity)
    && slot.cardType == ExpansionCardType(slot.identity)
    && (if i < count then slot.slotIndex == i && slot.slotKind == UsbCExpansionCardSlot
        else slot == DEFAULT_EXPANSION_CARD)
  }

  predicate SlotsOk(slots: seq<ExpansionCard>, count: nat) {
    forall i :: 0 <= i < |slots| ==> SlotOk(slots[i], i, count)
  }

  lemma InitialSlotsOk(queried: seq<PdPortState>)
    requires |queried| <= 6
    ensures SlotsOk(InitialSlots(EMPTY_TABLE.slots, PdStatesOf(queried)), |queried|)
  {}

  lemma HidPassKeepsSlotsOk(t: Table, queried: seq<PdPortState>, cards: seq<HidObservation>)
    requires |t.slots| == 6 && |t.detached| == 4 && |queried| <= 6 && SlotsOk(t.slots, |queried|)
    ensures SlotsOk(RunHid(t, PdStatesOf(queried), cards).slots, |queried|)
  {}

  lemma UsbPassKeepsSlotsOk(t: Table, queried: seq<PdPortState>, pass: UsbPass, cards: seq<UsbObservation>)
    requires |t.slots| == 6 && |t.detached| == 4 && |queried| <= 6 && SlotsOk(t.slots, |queried|)
    requires pass.identity != NoIdentity
    ensures SlotsOk(RunUsb(t, PdStatesOf(queried), pass, cards).slots, |queried|)
  {}

  lemma {:induction false} UsbPassesKeepSlotsOk(t: Table, queried: seq<PdPortState>, ps: PassList)
    requires |t.slots| == 6 && |t.detached| == 4 && |queried| <= 6 && SlotsOk(t.slots, |queried|)
    requires forall i :: 0 <= i < |ps| ==> ps[i].0.identity != NoIdentity
    ensures SlotsOk(RunUsbPasses(t, PdStatesOf(queried), ps).slots, |queried|)
    decreases |ps|
  {
    if ps != [] {
      UsbPassKeepsSlotsOk(t, queried, ps[0].0, ps[0].1);
      UsbPassesKeepSlotsOk(RunUsb(t, PdStatesOf(queried), ps[0].0, ps[0].1), queried, ps[1..]);
    }
  }

  /** Every published slot is well formed, for all ports, card lists and platforms. */
  lemma PublishedSlotsOk(queried: seq<PdPortState>, d: Detections, platform: Platform)
    requires |queried| <= 6
    ensures SlotsOk(Resolved(EMPTY_TABLE, queried, d, platform).slots, |queried|)
  {
    var pds := PdStatesOf(queried);
    var start := EMPTY_TABLE.(slots := InitialSlots(EMPTY_TABLE.slots, pds));
    InitialSlotsOk(queried);
    HidPassKeepsSlotsOk(start, queried, d.hid);
    UsbPassesKeepSlotsOk(AfterHid(EMPTY_TABLE, queried, d), queried, UsbPasses(d));
    PipelineIsResolved(EMPTY_TABLE, queried, d, platform);
  }

  // ----- flags and PD state -----

  /** Which bits PdFlags sets: one per condition, and no other. */
  lemma PdFlagsBits(pd: PdPortState)
    ensures var dp := pd.altModeFlags & 1 != 0 || pd.altModeFlags & 2 != 0;
            && (PdFlags(pd) & CONNECTED != 0 <==> pd.cState != Nothing)
            && (PdFlags(pd) & HAS_PD_CONTRACT != 0 <==> pd.hasPdContract != 0)
            && (PdFlags(pd) & DISPLAY_ALT_MODE != 0 <==> dp)
            && (PdFlags(pd) & ACTIVE != 0 <==> pd.activePort != 0 || dp)
    ensures PdFlags(pd) & !(CONNECTED | HAS_PD_CONTRACT | DISPLAY_ALT_MODE | ACTIVE) == 0
  {}

  lemma ConnectedBitIsAlreadySet(pd: PdPortState)
    requires Connected(pd)
    ensures PdFlags(pd) | CONNECTED == PdFlags(pd)
  {}

  lemma InitialFlags(queried: seq<PdPortState>, i: nat)
    requires i < |queried| <= 6
    ensures InitialSlot(DEFAULT_EXPANSION_CARD, PdStatesOf(queried), i).flags ==
            if Connected(queried[i]) then PdFlags(queried[i]) else 0
  {}

  lemma FreeSlotsAreConnected(queried: seq<PdPortState>, i: nat)
    requires i < |queried| <= 6 && i in FreeSlots(PdStatesOf(queried))
    ensures Connected(queried[i])
  {}

  lemma HidClaimFlags(slot: ExpansionCard, si: nat, card: HidObservation)
    requires si < 6
    ensures HidClaim(slot, si, card).flags == slot.flags | CONNECTED
  {}

  lemma UsbClaimFlags(slot: ExpansionCard, si: nat, pass: UsbPass, card: UsbObservation)
    requires si < 6
    ensures UsbClaim(slot, si, pass, card).flags == slot.flags | CONNECTED
  {}

  lemma PlacedFlags(initial: ExpansionCard, i: nat, claim: Claim)
    requires i < 6 && !claim.NoClaim?
    ensures Placed(initial, i, claim).flags == initial.flags | CONNECTED
  {
    match claim
    case ByHid(card) => HidClaimFlags(initial, i, card);
    case ByUsb(pass, card) => UsbClaimFlags(initial, i, pass, card);
  }

  /** A claim, by the HID card or by a USB pass, adds the Connected bit to the flags of the slot it finds and
      changes no other bit; an unclaimed slot keeps its flags. */
  lemma ClaimAddsConnected(queried: seq<PdPortState>, d: Detections, i: nat)
    requires i < 6 && |queried| <= 6
    ensures var found := InitialSlot(DEFAULT_EXPANSION_CARD, PdStatesOf(queried), i).flags;
            Occupant(DEFAULT_EXPANSION_CARD, i, queried, d).flags ==
            if HidSlot(queried, d) == Some(i) || UsbSlot(queried, d) == Some(i) then found | CONNECTED else found
  {
    var claim := ClaimAt(i, queried, d);
    if !claim.NoClaim? { PlacedFlags(InitialSlot(DEFAULT_EXPANSION_CARD, PdStatesOf(queried), i), i, claim); }
  }

  lemma OccupantFlags(queried: seq<PdPortState>, d: Detections, i: nat)
    requires i < |queried| <= 6
    ensures Occupant(DEFAULT_EXPANSION_CARD, i, queried, d).flags ==
            if Connected(queried[i]) then PdFlags(queried[i])
            else if HidSlot(queried, d) == Some(i) then CONNECTED
            else 0
  {
    InitialFlags(queried, i);
    ClaimAddsConnected(queried, d, i);
    if Connected(queried[i]) {
      ConnectedBitIsAlreadySet(queried[i]);
    } else if UsbSlot(queried, d) == Some(i) {
      FreeSlotsAreConnected(queried, i);
    }
  }

  /** The published flags of a connected slot are those of the port state first queried, whatever claimed the
      slot. A queried slot with nothing connected has no flags, save that the HID card may be put there. */
  lemma FlagsComeFromTheQuery(queried: seq<PdPortState>, d: Detections, platform: Platform, i: nat)
    requires i < |queried| <= 6
    ensures Resolved(EMPTY_TABLE, queried, d, platform).slots[i].flags ==
            if Connected(queried[i]) then PdFlags(queried[i])
            else if HidSlot(queried, d) == Some(i) then CONNECTED
            else 0
  {
    OccupantFlags(queried, d, i);
  }

  /** The capability pass touches two fields only; the port state survives except on the Desktop's two slots. */
  lemma CapabilityPassIsLocal(slots: seq<ExpansionCard>, platform: Platform, count: nat, i: nat)
    requires i < |slots|
    ensures var r := CapableSlots(slots, platform, count)[i];
            && slots[i] == r.(capability := slots[i].capability, pd := slots[i].pd)
            && (i >= count ==> r == slots[i])
            && (i < count ==> r.capability == Capabilities.SlotCapability(platform, i))
            && (i < count ==> r.pd == if platform == FrameworkDesktopAmdAiMax300 && i < 2 then DEFAULT_PD
                                      else slots[i].pd)
  {
    Capabilities.ClearsPdOnlyOnDesktop(platform, i);
  }

  // ----- who claims what -----

  /** The two stages draw from disjoint slots, whatever the slots hold by then. */
  lemma StagesAreDisjoint(pds: PdStates, slots: seq<ExpansionCard>, i: nat)
    requires |pds| == |slots|
    ensures !(i in DpSlots(pds) && i in Candidates(pds, slots))
  {}

  predicate UsbCardIdentity(identity: ModuleIdentity) {
    identity in {AudioExpansionCard, SsdExpansionCard, UsbAExpansionCard, EthernetExpansionCard,
                 SdExpansionCard, MicroSdExpansionCard}
  }

  lemma UsbSlotIsTheOnlyFreeOne(queried: seq<PdPortState>, d: Detections, i: nat)
    requires |queried| <= 6
    ensures UsbSlot(queried, d) == Some(i) <==>
            FreeSlots(PdStatesOf(queried)) == [i] && Winner(UsbPasses(d)) < 6
    ensures UsbSlot(queried, d) == Some(i) ==>
            HidSlot(queried, d) != Some(i) && UsbWinner(queried, d) == Winner(UsbPasses(d))
  {
    var free := FreeSlots(PdStatesOf(queried));
    if |free| == 1 { assert free == [free[0]]; }
    ClaimsAreApart(queried, d);
  }

  /** A USB card identity comes from a USB claim only. */
  lemma PlacedUsbCard(queried: seq<PdPortState>, i: nat, claim: Claim)
    requires i < 6 && |queried| <= 6
    requires claim.ByUsb? ==> UsbCardIdentity(claim.pass.identity)
    ensures var slot := Placed(InitialSlot(DEFAULT_EXPANSION_CARD, PdStatesOf(queried), i), i, claim);
            && (UsbCardIdentity(slot.identity) <==> claim.ByUsb?)
            && (claim.ByUsb? ==> ShowsUsbCard(slot, claim.pass, claim.usbCard))
  {}

  lemma PassesAreForUsbCards(d: Detections, w: nat)
    requires w < 6
    ensures UsbCardIdentity(UsbPasses(d)[w].0.identity)
  {}

  lemma OccupantShowsUsbCard(queried: seq<PdPortState>, d: Detections, i: nat)
    requires i < 6 && |queried| <= 6
    ensures var slot := Occupant(DEFAULT_EXPANSION_CARD, i, queried, d);
            var w := Winner(UsbPasses(d));
            && (UsbCardIdentity(slot.identity) <==> FreeSlots(PdStatesOf(queried)) == [i] && w < 6)
            && (UsbCardIdentity(slot.identity) ==> ShowsUsbCard(slot, UsbPasses(d)[w].0, UsbPasses(d)[w].1[0]))
  {
    UsbSlotIsTheOnlyFreeOne(queried, d, i);
    if UsbWinner(queried, d) < 6 { PassesAreForUsbCards(d, UsbWinner(queried, d)); }
    PlacedUsbCard(queried, i, ClaimAt(i, queried, d));
  }

  predicate ShowsUsbCard(slot: ExpansionCard, pass: UsbPass, card: UsbObservation) {
    && slot.identity == pass.identity && slot.bus == pass.slotBus
    && slot.confidence == pass.slotConfidence && slot.cardConfidence == pass.cardConfidence
    && slot.vendorId == card.vendorId && slot.productId == card.productId
  }

  /** A slot shows a USB card exactly when it is the only connected slot without DP alt mode and some USB list has
      exactly one card, and then it shows the card of the first such list. Hence at most one slot ever does. */
  lemma UsbCardShown(queried: seq<PdPortState>, d: Detections, platform: Platform, i: nat)
    requires i < 6 && |queried| <= 6
    ensures var slot := Resolved(EMPTY_TABLE, queried, d, platform).slots[i];
            var w := Winner(UsbPasses(d));
            && (UsbCardIdentity(slot.identity) <==> FreeSlots(PdStatesOf(queried)) == [i] && w < 6)
            && (UsbCardIdentity(slot.identity) ==> ShowsUsbCard(slot, UsbPasses(d)[w].0, UsbPasses(d)[w].1[0]))
  {
    OccupantShowsUsbCard(queried, d, i);
  }

  predicate ShowsHidCard(slot: ExpansionCard) { slot.bus.Composite? && slot.confidence.Direct? }

  lemma HidSlotIsTheOnlyDpOne(queried: seq<PdPortState>, d: Detections, i: nat)
    requires |queried| <= 6
    ensures HidSlot(queried, d) == Some(i) <==> |d.hid| == 1 && DpSlots(PdStatesOf(queried)) == [i]
  {
    var dp := DpSlots(PdStatesOf(queried));
    if |dp| == 1 { assert dp == [dp[0]]; }
  }

  lemma PlacedHidCard(queried: seq<PdPortState>, i: nat, claim: Claim)
    requires i < 6 && |queried| <= 6
    requires claim.ByUsb? && claim.pass.slotBus.Composite? ==> claim.pass.slotConfidence.DerivedWeak?
    ensures var slot := Placed(InitialSlot(DEFAULT_EXPANSION_CARD, PdStatesOf(queried), i), i, claim);
            && (ShowsHidCard(slot) <==> claim.ByHid?)
            && (claim.ByHid? ==> HoldsHidCard(slot, claim.hidCard))
  {}

  predicate HoldsHidCard(slot: ExpansionCard, card: HidObservation) {
    && slot.identity == ExpansionCardIdentity(card.productId)
    && slot.vendorId == card.vendorId && slot.productId == card.productId
  }

  lemma OccupantShowsHidCard(queried: seq<PdPortState>, d: Detections, i: nat)
    requires i < 6 && |queried| <= 6
    ensures var slot := Occupant(DEFAULT_EXPANSION_CARD, i, queried, d);
            && (ShowsHidCard(slot) <==> |d.hid| == 1 && DpSlots(PdStatesOf(queried)) == [i])
            && (ShowsHidCard(slot) ==> HoldsHidCard(slot, d.hid[0]))
  {
    HidSlotIsTheOnlyDpOne(queried, d, i);
    PlacedHidCard(queried, i, ClaimAt(i, queried, d));
  }

  /** A slot shows the HID card exactly when that card is alone and the slot is the only one in DP alt mode,
      connected or not, whatever its product id; no USB pass overwrites it. */
  lemma HidCardShown(queried: seq<PdPortState>, d: Detections, platform: Platform, i: nat)
    requires i < 6 && |queried| <= 6
    ensures var slot := Resolved(EMPTY_TABLE, queried, d, platform).slots[i];
            && (ShowsHidCard(slot) <==> |d.hid| == 1 && DpSlots(PdStatesOf(queried)) == [i])
            && (ShowsHidCard(slot) ==> HoldsHidCard(slot, d.hid[0]))
  {
    OccupantShowsHidCard(queried, d, i);
  }

  // ----- conservation of cards -----

  datatype Tag = Tag(identity: ModuleIdentity, vendorId: U32, productId: U32)

  function Hit(x: Tag, y: Tag): nat { if x == y then 1 else 0 }

  function HidTag(card: HidObservation): Tag {
    Tag(ExpansionCardIdentity(card.productId), card.vendorId, card.productId)
  }

  /** How often the card `x` occurs in a HID list, in a USB list, in all USB lists, in a detached list. */
  function CountHid(x: Tag, cards: seq<HidObservation>): nat {
    if cards == [] then 0 else Hit(x, HidTag(cards[0])) + CountHid(x, cards[1..])
  }

  function CountUsb(x: Tag, identity: ModuleIdentity, cards: seq<UsbObservation>): nat {
    if cards == [] then 0
    else Hit(x, Tag(identity, cards[0].vendorId, cards[0].productId)) + CountUsb(x, identity, cards[1..])
  }

  function CountPasses(x: Tag, ps: PassList): nat {
    if ps == [] then 0 else CountUsb(x, ps[0].0.identity, ps[0].1) + CountPasses(x, ps[1..])
  }

  function CountModules(x: Tag, ms: seq<ModuleDescriptor>): nat {
    if ms == [] then 0
    else Hit(x, Tag(ms[0].identity, ms[0].vendorId, ms[0].productId)) + CountModules(x, ms[1..])
  }

  /** A published slot holds a detected card when its bus says so; unclaimed slots are on the EC bus or empty. */
  predicate HoldsCard(slot: ExpansionCard) { slot.bus.Composite? || slot.bus.Usb? }

  function CountSlot(x: Tag, slot: ExpansionCard): nat {
    if HoldsCard(slot) then Hit(x, Tag(slot.identity, slot.vendorId, slot.productId)) else 0
  }

  /** How often the card `x` can be read off the first `n` slots. */
  function CountSlots(x: Tag, slots: seq<ExpansionCard>, n: nat): nat
    requires n <= |slots|
  {
    if n == 0 then 0 else CountSlots(x, slots, n - 1) + CountSlot(x, slots[n - 1])
  }

  lemma {:induction false} CountModulesAppend(x: Tag, a: seq<ModuleDescriptor>, b: seq<ModuleDescriptor>)
    ensures CountModules(x, a + b) == CountModules(x, a) + CountModules(x, b)
  {
    if a == [] {
      assert a + b == b;
    } else {
      assert (a + b)[1..] == a[1..] + b;
      CountModulesAppend(x, a[1..], b);
    }
  }

  lemma {:induction false} HidSpillsKeepCards(x: Tag, cards: seq<HidObservation>)
    ensures CountModules(x, HidSpills(cards)) == CountHid(x, cards)
  {
    if cards != [] {
      assert HidSpills(cards)[1..] == HidSpills(cards[1..]);
      HidSpillsKeepCards(x, cards[1..]);
    }
  }

  lemma {:induction false} UsbSpillsKeepCards(x: Tag, pass: UsbPass, cards: seq<UsbObservation>)
    ensures CountModules(x, UsbSpills(pass, cards)) == CountUsb(x, pass.identity, cards)
  {
    if cards != [] {
      assert UsbSpills(pass, cards)[1..] == UsbSpills(pass, cards[1..]);
      UsbSpillsKeepCards(x, pass, cards[1..]);
    }
  }

  /** The losers and the one card of the claiming pass are all the USB cards. */
  lemma {:induction false} LosersAndWinnerAreAll(x: Tag, ps: PassList, w: nat)
    requires w < |ps| ==> |ps[w].1| == 1
    ensures CountPasses(x, ps) == CountModules(x, Losers(ps, w)) +
            if w < |ps| then CountUsb(x, ps[w].0.identity, ps[w].1) else 0
    decreases |ps|
  {
    if ps != [] {
      var rest := ps[1..];
      if w == 0 {
        LosersAndWinnerAreAll(x, rest, |rest|);
        LosersPastTheEnd(rest, -1, |rest|);
        assert Losers(ps, 0) == Losers(rest, -1);
      } else {
        LosersAndWinnerAreAll(x, rest, w - 1);
        UsbSpillsKeepCards(x, ps[0].0, ps[0].1);
        CountModulesAppend(x, UsbSpills(ps[0].0, ps[0].1), Losers(rest, w - 1));
      }
    }
  }

  /** Slots that hold cards at `h` and `u` only are counted by these two. */
  lemma {:induction false} CountSlotsOfClaims(x: Tag, slots: seq<ExpansionCard>, n: nat, h: Option<nat>, u: Option<nat>)
    requires n <= |slots| && (h.Some? ==> h.value < |slots|) && (u.Some? ==> u.value < |slots| && h != u)
    requires forall i :: 0 <= i < |slots| && HoldsCard(slots[i]) ==> h == Some(i) || u == Some(i)
    ensures CountSlots(x, slots, n) ==
            (if h.Some? && h.value < n then CountSlot(x, slots[h.value]) else 0) +
            (if u.Some? && u.value < n then CountSlot(x, slots[u.value]) else 0)
  {
    if n != 0 {
      CountSlotsOfClaims(x, slots, n - 1, h, u);
    }
  }

  lemma OccupantsHoldClaims(x: Tag, queried: seq<PdPortState>, d: Detections, i: nat)
    requires i < 6 && |queried| <= 6
    ensures var slot := Occupant(DEFAULT_EXPANSION_CARD, i, queried, d);
            var w := UsbWinner(queried, d);
            && (HoldsCard(slot) ==> HidSlot(queried, d) == Some(i) || UsbSlot(queried, d) == Some(i))
            && (HidSlot(queried, d) == Some(i) ==>
                  UsbSlot(queried, d) != Some(i) && CountSlot(x, slot) == CountHid(x, d.hid))
            && (UsbSlot(queried, d) == Some(i) ==>
                  CountSlot(x, slot) == CountUsb(x, UsbPasses(d)[w].0.identity, UsbPasses(d)[w].1))
  {}

  lemma PublishedClaims(x: Tag, queried: seq<PdPortState>, d: Detections, platform: Platform)
    requires |queried| <= 6
    ensures var w := UsbWinner(queried, d);
            CountSlots(x, Resolved(EMPTY_TABLE, queried, d, platform).slots, 6) ==
              (if HidSlot(queried, d).Some? then CountHid(x, d.hid) else 0) +
              (if w < 6 then CountUsb(x, UsbPasses(d)[w].0.identity, UsbPasses(d)[w].1) else 0)
  {
    var slots := Resolved(EMPTY_TABLE, queried, d, platform).slots;
    forall i | 0 <= i < 6
      ensures CountSlot(x, slots[i]) == CountSlot(x, Occupant(DEFAULT_EXPANSION_CARD, i, queried, d))
      ensures HoldsCard(slots[i]) <==> HoldsCard(Occupant(DEFAULT_EXPANSION_CARD, i, queried, d))
    {}
    forall i | 0 <= i < 6 { OccupantsHoldClaims(x, queried, d, i); }
    CountSlotsOfClaims(x, slots, 6, HidSlot(queried, d), UsbSlot(queried, d));
  }

  /** No card is lost and none is shown twice: each card occurs in the slots and among the spilled ones together
      exactly as often as in the seven detection lists. */
  lemma CardsAreConserved(x: Tag, queried: seq<PdPortState>, d: Detections, platform: Platform)
    requires |queried| <= 6
    ensures CountSlots(x, Resolved(EMPTY_TABLE, queried, d, platform).slots, 6) + CountModules(x, Spilled(queried, d))
         == CountHid(x, d.hid) + CountPasses(x, UsbPasses(d))
  {
    PublishedClaims(x, queried, d, platform);
    LosersAndWinnerAreAll(x, UsbPasses(d), UsbWinner(queried, d));
    HidSpillsKeepCards(x, d.hid);
    CountModulesAppend(x, if HidSlot(queried, d).Some? then [] else HidSpills(d.hid),
                       Losers(UsbPasses(d), UsbWinner(queried, d)));
  }

  /** The published detached list is the first four spilled cards; unused entries stay default. */
  lemma DetachedIsPrefixOfSpilled(queried: seq<PdPortState>, d: Detections, platform: Platform)
    requires |queried| <= 6
    ensures var t := Resolved(EMPTY_TABLE, queried, d, platform);
            var spilled := Spilled(queried, d);
            && t.count == Min(4, |spilled|)
            && t.detached[..t.count] == spilled[..t.count]
            && forall i :: t.count <= i < 4 ==> t.detached[i] == DEFAULT_MODULE
  {}

  function CountDetected(x: Tag, d: Detections): nat { CountHid(x, d.hid) + CountPasses(x, UsbPasses(d)) }

  /** How often the card `x` can be read off the published tables. */
  function CountPublished(x: Tag, t: Table): nat
    requires |t.slots| == 6 && t.count <= |t.detached|
  {
    CountSlots(x, t.slots, 6) + CountModules(x, t.detached[..t.count])
  }

  function TagOf(m: ModuleDescriptor): Tag { Tag(m.identity, m.vendorId, m.productId) }

  lemma SpilledInTwo(x: Tag, spilled: seq<ModuleDescriptor>, k: nat)
    requires k <= |spilled|
    ensures CountModules(x, spilled) == CountModules(x, spilled[..k]) + CountModules(x, spilled[k..])
  {
    assert spilled == spilled[..k] + spilled[k..];
    CountModulesAppend(x, spilled[..k], spilled[k..]);
  }

  /** The published tables account for every detected card exactly when at most four cards were left unclaimed;
      beyond four, the ones in excess are the only ones missing. */
  lemma EveryCardIsShownIff(queried: seq<PdPortState>, d: Detections, platform: Platform)
    requires |queried| <= 6
    ensures var t := Resolved(EMPTY_TABLE, queried, d, platform);
            && t.count <= 4
            && ((forall x :: CountPublished(x, t) == CountDetected(x, d)) <==> |Spilled(queried, d)| <= 4)
  {
    var t := Resolved(EMPTY_TABLE, queried, d, platform);
    var spilled := Spilled(queried, d);
    DetachedIsPrefixOfSpilled(queried, d, platform);
    forall x ensures CountPublished(x, t) + CountModules(x, spilled[t.count..]) == CountDetected(x, d) {
      CardsAreConserved(x, queried, d, platform);
      SpilledInTwo(x, spilled, t.count);
    }
    if |spilled| > 4 {
      var x := TagOf(spilled[4]);
      assert CountModules(x, spilled[4..]) > 0;
      assert CountPublished(x, t) != CountDetected(x, d);
    }
  }

  // ----- the written correlation rule -----

  function AssignAll(slots: seq<ExpansionCard>, c: seq<nat>, pass: UsbPass, cards: seq<UsbObservation>): (r: seq<ExpansionCard>)
    requires |c| == |cards| && |slots| == 6
    requires forall i :: 0 <= i < |c| ==> c[i] < 6
    ensures |r| == 6
    decreases |c|
  {
    if c == [] then slots
    else AssignAll(slots[c[0] := UsbClaim(slots[c[0]], c[0], pass, cards[0])], c[1..], pass, cards[1..])
  }

  /** The rule of FFI_NOTES.md: N cards meeting N candidate slots are all assigned, otherwise all are detached. */
  function DocumentedPass(t: Table, pds: PdStates, pass: UsbPass, cards: seq<UsbObservation>): (r: Table)
    requires |pds| == |t.slots| == 6 && |t.detached| == 4
    ensures |r.slots| == 6
  {
    var c := Candidates(pds, t.slots);
    if |c| == |cards| then t.(slots := AssignAll(t.slots, c, pass, cards)) else Spill(t, UsbSpills(pass, cards))
  }

  lemma {:induction false} AscendingIsShort(c: seq<nat>, n: nat)
    requires forall i, j :: 0 <= i < j < |c| ==> c[i] < c[j]
    requires forall i :: 0 <= i < |c| ==> c[i] < n
    ensures |c| <= n
  {
    if c != [] {
      AscendingIsShort(c[..|c| - 1], c[|c| - 1]);
    }
  }

  lemma CandidatesAscend(pds: PdStates, slots: seq<ExpansionCard>)
    requires |pds| == |slots|
    ensures var c := Candidates(pds, slots); forall i, j :: 0 <= i < j < |c| ==> c[i] < c[j]
  {}

  lemma {:induction false} AssignAllReaches(slots: seq<ExpansionCard>, c: seq<nat>, pass: UsbPass, cards: seq<UsbObservation>, k: nat)
    requires |c| == |cards| && |slots| == 6 && k < 6
    requires forall i :: 0 <= i < |c| ==> c[i] < 6
    requires k in c || slots[k].identity == pass.identity
    ensures AssignAll(slots, c, pass, cards)[k].identity == pass.identity
    decreases |c|
  {
    if c != [] {
      AssignAllReaches(slots[c[0] := UsbClaim(slots[c[0]], c[0], pass, cards[0])], c[1..], pass, cards[1..], k);
    }
  }

  /** The code follows the written rule exactly when the pass does not have two or more cards meeting as many
      candidate slots; in that case it detaches them all. */
  lemma NotesHoldIff(t: Table, pds: PdStates, pass: UsbPass, cards: seq<UsbObservation>)
    requires |pds| == |t.slots| == 6 && |t.detached| == 4
    requires pass.identity != UnknownUsbCOccupant
    ensures RunUsb(t, pds, pass, cards) == DocumentedPass(t, pds, pass, cards)
       <==> !(|cards| == |Candidates(pds, t.slots)| && |cards| >= 2)
  {
    var c := Candidates(pds, t.slots);
    if |cards| == |c| && |cards| >= 2 {
      AssignAllReaches(t.slots, c, pass, cards, c[0]);
    } else if |cards| == |c| == 1 {
      assert AssignAll(t.slots, c, pass, cards) == t.slots[c[0] := UsbClaim(t.slots[c[0]], c[0], pass, cards[0])];
    }
  }

  /** The slots a HID card may be put into by the notes: connected, in DP alt mode and not identified yet. The code
      asks for DP alt mode alone. */
  function HidCandidates(pds: PdStates, slots: seq<ExpansionCard>): (r: seq<nat>)
    requires |pds| == |slots|
    ensures forall i :: 0 <= i < |r| ==> r[i] < |pds| && r[i] in DpSlots(pds)
    ensures forall k :: 0 <= k < |pds| ==>
      (k in r <==> k in DpSlots(pds) && Connected(pds[k].value) && slots[k].identity == UnknownUsbCOccupant)
  {
    Positions(seq(|pds|, i requires 0 <= i < |pds| =>
      pds[i].Some? && DpAltMode(pds[i].value) && Connected(pds[i].value) &&
      slots[i].identity == UnknownUsbCOccupant), 0)
  }

  function AssignAllHid(slots: seq<ExpansionCard>, c: seq<nat>, cards: seq<HidObservation>): (r: seq<ExpansionCard>)
    requires |c| == |cards| && |slots| == 6
    requires forall i :: 0 <= i < |c| ==> c[i] < 6
    ensures |r| == 6
    decreases |c|
  {
    if c == [] then slots
    else AssignAllHid(slots[c[0] := HidClaim(slots[c[0]], c[0], cards[0])], c[1..], cards[1..])
  }

  function DocumentedHid(t: Table, pds: PdStates, cards: seq<HidObservation>): (r: Table)
    requires |pds| == |t.slots| == 6 && |t.detached| == 4
    ensures |r.slots| == 6
  {
    var c := HidCandidates(pds, t.slots);
    if |c| == |cards| then t.(slots := AssignAllHid(t.slots, c, cards)) else Spill(t, HidSpills(cards))
  }

  /** The HID pass departs from the written rule in exactly two ways: two or more cards meeting as many candidates
      are detached, and a single card goes by the slots in DP alt mode, connected or not, where the rule counts the
      candidates. The pass runs first, when the detached list has room. */
  lemma HidNotesHoldIff(t: Table, pds: PdStates, cards: seq<HidObservation>)
    requires |pds| == |t.slots| == 6 && |t.detached| == 4 && t.count < 4
    ensures RunHid(t, pds, cards) == DocumentedHid(t, pds, cards)
       <==> && !(|cards| >= 2 && |HidCandidates(pds, t.slots)| == |cards|)
            && !(|cards| == 1 && (|DpSlots(pds)| == 1) != (|HidCandidates(pds, t.slots)| == 1))
  {
    var c, dp := HidCandidates(pds, t.slots), DpSlots(pds);
    if |cards| == |c| == |dp| == 1 {
      assert c[0] in dp;
      assert AssignAllHid(t.slots, c, cards) == t.slots[c[0] := HidClaim(t.slots[c[0]], c[0], cards[0])];
    } else {
      assert |HidSpills(cards)| == |cards|;
    }
  }

  /** One HID card and one port that reports DP alt mode with nothing connected: by the notes the card is detached,
      by the code it is put there. */
  lemma HidCardOnAnEmptyPort(pd: PdPortState, card: HidObservation)
    requires !Connected(pd) && DpAltMode(pd)
    ensures var pds := PdStatesOf([pd]);
            var t := EMPTY_TABLE.(slots := InitialSlots(EMPTY_TABLE.slots, pds));
            && RunHid(t, pds, [card]).slots[0].vendorId == card.vendorId && RunHid(t, pds, [card]).count == 0
            && DocumentedHid(t, pds, [card]) == Spill(t, HidSpills([card]))
  {
    var pds := PdStatesOf([pd]);
    var dp := DpSlots(pds);
    assert pds[0] == Some(pd) && 0 in dp;
    assert forall i :: 0 <= i < |dp| ==> dp[i] == 0;
    AscendingIsShort(dp, 1);
  }

  /** Two storage cards meet two free slots: by the notes both are placed, by the code both are detached. */
  lemma TwoCardsTwoSlots(pd: PdPortState)
    requires Connected(pd) && !DpAltMode(pd)
    ensures var ssd := UsbObservation(0x32AC, 0x0005, -1);
            var pds := PdStatesOf([pd, pd]);
            var t := EMPTY_TABLE.(slots := InitialSlots(EMPTY_TABLE.slots, pds));
            && RunUsb(t, pds, SSD_PASS, [ssd, ssd]) == Spill(t, UsbSpills(SSD_PASS, [ssd, ssd]))
            && DocumentedPass(t, pds, SSD_PASS, [ssd, ssd]).slots[0].identity == SsdExpansionCard
  {
    var ssd := UsbObservation(0x32AC, 0x0005, -1);
    var pds := PdStatesOf([pd, pd]);
    var t := EMPTY_TABLE.(slots := InitialSlots(EMPTY_TABLE.slots, pds));
    var c := Candidates(pds, t.slots);
    assert t.slots[0] == InitialSlot(DEFAULT_EXPANSION_CARD, pds, 0);
    assert t.slots[1] == InitialSlot(DEFAULT_EXPANSION_CARD, pds, 1);
    assert IsCandidate(pds, t.slots, 0) && IsCandidate(pds, t.slots, 1);
    assert 0 in c && 1 in c && forall i :: 0 <= i < |c| ==> c[i] < 2;
    CandidatesAscend(pds, t.slots);
    AscendingIsShort(c, 2);
    AssignAllReaches(t.slots, c, SSD_PASS, [ssd, ssd], 0);
  }
}
