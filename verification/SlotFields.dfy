/** What a reader of the published tables sees, field by field: which card stands in which slot with which ids,
    whose PD state it carries, and what the detached list holds. Stated on the queried ports and the seven detection
    lists alone. */
module SlotFields {
  import opened Abi
  import opened Detect
  import opened SlotCorrelation
  import opened SlotResolution
  import opened SlotLaws
  import Capabilities

  // ----- ports -----

  predicate HasDpAltMode(pd: PdPortState) { pd.altModeFlags & 1 != 0 || pd.altModeFlags & 2 != 0 }

  /** Something other than a DP device is plugged in. */
  predicate Usable(pd: PdPortState) { pd.cState != Nothing && !HasDpAltMode(pd) }

  predicate OnlyDpPort(queried: seq<PdPortState>, i: nat) {
    forall j :: 0 <= j < |queried| ==> (HasDpAltMode(queried[j]) <==> j == i)
  }

  predicate OnlyUsablePort(queried: seq<PdPortState>, i: nat) {
    forall j :: 0 <= j < |queried| ==> (Usable(queried[j]) <==> j == i)
  }

  /** Either of the two lowest bits makes an alt mode a DP one. */
  lemma DpBits(pd: PdPortState)
    ensures DpAltMode(pd) <==> HasDpAltMode(pd)
  {}

  lemma DpSlotIsAlone(queried: seq<PdPortState>, i: nat)
    requires |queried| <= 6
    ensures DpSlots(PdStatesOf(queried)) == [i] <==>
            i < |queried| && OnlyDpPort(queried, i)
  {
    forall j | 0 <= j < |queried| { DpBits(queried[j]); }
    var dp := DpSlots(PdStatesOf(queried));
    forall j | 0 <= j < |queried| ensures j in dp <==> HasDpAltMode(queried[j]) {
      assert PdStatesOf(queried)[j] == Some(queried[j]);
    }
    OnlyMember(dp, i);
  }

  lemma FreeSlotIsAlone(queried: seq<PdPortState>, i: nat)
    requires |queried| <= 6
    ensures FreeSlots(PdStatesOf(queried)) == [i] <==>
            i < |queried| && OnlyUsablePort(queried, i)
  {
    forall j | 0 <= j < |queried| { DpBits(queried[j]); }
    var free := FreeSlots(PdStatesOf(queried));
    forall j | 0 <= j < |queried| ensures j in free <==> Usable(queried[j]) {
      assert PdStatesOf(queried)[j] == Some(queried[j]);
    }
    OnlyMember(free, i);
  }

  lemma OnlyMember(s: seq<nat>, i: nat)
    requires forall j, k :: 0 <= j < k < |s| ==> s[j] < s[k]
    ensures s == [i] <==> i in s && forall j :: j in s ==> j == i
  {
    if i in s && forall j :: j in s ==> j == i {
      forall k | 0 <= k < |s| ensures s[k] == i { assert s[k] in s; }
      assert |s| < 2 || s[0] < s[1];
    }
  }

  // ----- PD states -----

  lemma OccupantKeepsPd(queried: seq<PdPortState>, d: Detections, i: nat)
    requires i < |queried| <= 6
    ensures Occupant(DEFAULT_EXPANSION_CARD, i, queried, d).pd == queried[i]
  {
    var initial := InitialSlot(DEFAULT_EXPANSION_CARD, PdStatesOf(queried), i);
    assert initial.pd == queried[i];
    assert Placed(initial, i, ClaimAt(i, queried, d)).pd == initial.pd;
  }

  /** A published slot carries the PD state its port was queried for, whatever claims it; the Desktop's two slots
      alone carry none. Slots beyond the ports carry none either. */
  lemma PublishedPdState(queried: seq<PdPortState>, d: Detections, platform: Platform, i: nat)
    requires i < 6 && |queried| <= 6
    ensures Resolved(EMPTY_TABLE, queried, d, platform).slots[i].pd ==
            if i >= |queried| || (platform == FrameworkDesktopAmdAiMax300 && i < 2) then DEFAULT_PD else queried[i]
  {
    Capabilities.ClearsPdOnlyOnDesktop(platform, i);
    if i < |queried| { OccupantKeepsPd(queried, d, i); }
  }

  // ----- slots -----

  predicate ShowsCard(slot: ExpansionCard, identity: ModuleIdentity, bus: ModuleBus, confidence: Confidence,
                      cardType: CardType, cardConfidence: Confidence, vendorId: Word, productId: Word)
  {
    && slot.identity == identity && slot.bus == bus && slot.confidence == confidence
    && slot.cardType == cardType && slot.cardConfidence == cardConfidence
    && slot.vendorId == vendorId && slot.productId == productId && slot.boardId == -1 && slot.present == 1
  }

  /** The first USB list with exactly one card, counted from 0; 6 when there is none. */
  function FirstLone(d: Detections): nat {
    if |d.audio| == 1 then 0 else if |d.ssd| == 1 then 1 else if |d.usbA| == 1 then 2
    else if |d.ethernet| == 1 then 3 else if |d.sd| == 1 then 4 else if |d.microSd| == 1 then 5 else 6
  }

  lemma WinnerIsFirstLone(d: Detections)
    ensures Winner(UsbPasses(d)) == FirstLone(d)
  {
    var ps := UsbPasses(d);
    assert ps[0].1 == d.audio && ps[1].1 == d.ssd && ps[2].1 == d.usbA;
    assert ps[3].1 == d.ethernet && ps[4].1 == d.sd && ps[5].1 == d.microSd;
  }

  /** What that list's card makes of the only free slot. */
  predicate ShowsFirstLoneCard(slot: ExpansionCard, d: Detections) {
    match FirstLone(d)
    case 0 => var card := d.audio[0];
      ShowsCard(slot, AudioExpansionCard, Composite, DerivedWeak, Audio, Direct, card.vendorId, card.productId)
    case 1 => var card := d.ssd[0];
      ShowsCard(slot, SsdExpansionCard, Usb, Direct, Ssd, Direct, card.vendorId, card.productId)
    case 2 => var card := d.usbA[0];
      ShowsCard(slot, UsbAExpansionCard, Usb, DerivedWeak, UsbA, DerivedWeak, card.vendorId, card.productId)
    case 3 => var card := d.ethernet[0];
      ShowsCard(slot, EthernetExpansionCard, Usb, DerivedWeak, Ethernet, DerivedWeak, card.vendorId, card.productId)
    case 4 => var card := d.sd[0];
      ShowsCard(slot, SdExpansionCard, Usb, DerivedWeak, Sd, DerivedWeak, card.vendorId, card.productId)
    case 5 => var card := d.microSd[0];
      ShowsCard(slot, MicroSdExpansionCard, Usb, DerivedWeak, MicroSd, DerivedWeak, card.vendorId, card.productId)
    case _ =>
      ShowsCard(slot, UnknownUsbCOccupant, Ec, DerivedWeak, UnknownCard, UnknownConfidence, 0, 0)
  }

  predicate ShowsHid(slot: ExpansionCard, card: HidObservation) {
    if card.productId == 0x0003 then
      ShowsCard(slot, DpExpansionCard, Composite, Direct, DisplayPort, Direct, card.vendorId, card.productId)
    else if card.productId == 0x0002 then
      ShowsCard(slot, HdmiExpansionCard, Composite, Direct, Hdmi, Direct, card.vendorId, card.productId)
    else
      ShowsCard(slot, UnknownUsbCOccupant, Composite, Direct, UnknownCard, Direct, card.vendorId, card.productId)
  }

  /** Nothing is identified: an occupied port shows an unknown occupant, more confidently so in DP alt mode, and a
      free one keeps the defaults. */
  predicate ShowsPortOnly(slot: ExpansionCard, pd: PdPortState) {
    if pd.cState != Nothing then
      ShowsCard(slot, UnknownUsbCOccupant, Ec, if HasDpAltMode(pd) then DerivedStrong else DerivedWeak,
                UnknownCard, UnknownConfidence, 0, 0)
    else
      && slot.identity == NoIdentity && slot.bus == UnknownBus && slot.confidence == UnknownConfidence
      && slot.cardType == UnknownCard && slot.cardConfidence == UnknownConfidence
      && slot.vendorId == slot.productId == 0 && slot.boardId == -1 && slot.present == 0
  }

  lemma InitialShowsPort(queried: seq<PdPortState>, i: nat)
    requires i < |queried| <= 6
    ensures ShowsPortOnly(InitialSlot(DEFAULT_EXPANSION_CARD, PdStatesOf(queried), i), queried[i])
  {
    DpBits(queried[i]);
  }

  lemma EarlyClaimShows(slot: ExpansionCard, i: nat, d: Detections, w: nat)
    requires i < 6 && w == FirstLone(d) < 3
    ensures |UsbPasses(d)[w].1| == 1
    ensures ShowsFirstLoneCard(UsbClaim(slot, i, UsbPasses(d)[w].0, UsbPasses(d)[w].1[0]), d)
  {}

  lemma LateClaimShows(slot: ExpansionCard, i: nat, d: Detections, w: nat)
    requires i < 6 && 3 <= w == FirstLone(d) < 6
    ensures |UsbPasses(d)[w].1| == 1
    ensures ShowsFirstLoneCard(UsbClaim(slot, i, UsbPasses(d)[w].0, UsbPasses(d)[w].1[0]), d)
  {}

  lemma UsbClaimShows(slot: ExpansionCard, i: nat, d: Detections, w: nat)
    requires i < 6 && w == FirstLone(d) < 6
    ensures |UsbPasses(d)[w].1| == 1
    ensures ShowsFirstLoneCard(UsbClaim(slot, i, UsbPasses(d)[w].0, UsbPasses(d)[w].1[0]), d)
  {
    if w < 3 { EarlyClaimShows(slot, i, d, w); } else { LateClaimShows(slot, i, d, w); }
  }

  lemma HidClaimShows(slot: ExpansionCard, i: nat, card: HidObservation)
    requires i < 6
    ensures ShowsHid(HidClaim(slot, i, card), card)
  {}

  /** The capability pass touches none of these fields. */
  predicate SameShown(a: ExpansionCard, b: ExpansionCard) {
    a == b.(capability := a.capability, pd := a.pd)
  }

  lemma PublishedShowsOccupant(queried: seq<PdPortState>, d: Detections, platform: Platform, i: nat)
    requires i < |queried| <= 6
    ensures SameShown(Resolved(EMPTY_TABLE, queried, d, platform).slots[i],
                      Placed(InitialSlot(DEFAULT_EXPANSION_CARD, PdStatesOf(queried), i), i, ClaimAt(i, queried, d)))
  {}

  lemma SameShowsTheSame(a: ExpansionCard, b: ExpansionCard, d: Detections, pd: PdPortState)
    requires SameShown(a, b)
    ensures ShowsFirstLoneCard(b, d) ==> ShowsFirstLoneCard(a, d)
    ensures |d.hid| == 1 && ShowsHid(b, d.hid[0]) ==> ShowsHid(a, d.hid[0])
    ensures ShowsPortOnly(b, pd) ==> ShowsPortOnly(a, pd)
  {}

  /** Which claim there is, by the ports and the lists alone. */
  lemma ClaimByPorts(queried: seq<PdPortState>, d: Detections, i: nat)
    requires i < |queried| <= 6
    ensures var claim := ClaimAt(i, queried, d);
            && (claim.ByHid? <==> |d.hid| == 1 && OnlyDpPort(queried, i))
            && (claim.ByHid? ==> claim.hidCard == d.hid[0])
            && (claim.ByUsb? <==> OnlyUsablePort(queried, i) && FirstLone(d) < 6)
            && (claim.ByUsb? ==> (var (pass, cards) := UsbPasses(d)[FirstLone(d)];
                                  |cards| == 1 && claim == ByUsb(pass, cards[0])))
  {
    DpSlotIsAlone(queried, i);
    FreeSlotIsAlone(queried, i);
    HidSlotIsTheOnlyDpOne(queried, d, i);
    UsbSlotIsTheOnlyFreeOne(queried, d, i);
    WinnerIsFirstLone(d);
  }

  lemma FreePortShowsUnknown(slot: ExpansionCard, d: Detections, pd: PdPortState)
    requires ShowsPortOnly(slot, pd) && Usable(pd) && FirstLone(d) == 6
    ensures ShowsFirstLoneCard(slot, d)
  {}

  /** What slot `i` shows, in every case: the lone HID card stands in the only port in DP alt mode, connected or not;
      the first USB list with exactly one card fills the only other port in use; every other slot shows its port. */
  lemma PublishedSlotShows(queried: seq<PdPortState>, d: Detections, platform: Platform, i: nat)
    requires i < |queried| <= 6
    ensures var slot := Resolved(EMPTY_TABLE, queried, d, platform).slots[i];
            if |d.hid| == 1 && OnlyDpPort(queried, i) then ShowsHid(slot, d.hid[0])
            else if OnlyUsablePort(queried, i) then ShowsFirstLoneCard(slot, d)
            else ShowsPortOnly(slot, queried[i])
  {
    var slot := Resolved(EMPTY_TABLE, queried, d, platform).slots[i];
    var initial := InitialSlot(DEFAULT_EXPANSION_CARD, PdStatesOf(queried), i);
    var claim := ClaimAt(i, queried, d);
    ClaimByPorts(queried, d, i);
    InitialShowsPort(queried, i);
    match claim {
      case NoClaim => if Usable(queried[i]) && FirstLone(d) == 6 { FreePortShowsUnknown(initial, d, queried[i]); }
      case ByHid(card) => HidClaimShows(initial, i, card);
      case ByUsb(_, _) => UsbClaimShows(initial, i, d, FirstLone(d));
    }
    PublishedShowsOccupant(queried, d, platform, i);
    SameShowsTheSame(slot, Placed(initial, i, claim), d, queried[i]);
  }

  // ----- detached list -----

  function Row(identity: ModuleIdentity, confidence: Confidence, cards: seq<UsbObservation>): seq<ModuleDescriptor> {
    seq(|cards|, i requires 0 <= i < |cards| =>
      ModuleDescriptor(identity, Usb, Detached, confidence, 1, -1, CONNECTED, cards[i].vendorId, cards[i].productId,
                       -1, UnknownPosition))
  }

  function HidRow(cards: seq<HidObservation>): seq<ModuleDescriptor> {
    seq(|cards|, i requires 0 <= i < |cards| =>
      ModuleDescriptor(if cards[i].productId == 3 then DpExpansionCard
                       else if cards[i].productId == 2 then HdmiExpansionCard else UnknownUsbCOccupant,
                       Hid, Detached, Direct, 1, -1, CONNECTED, cards[i].vendorId, cards[i].productId, -1,
                       UnknownPosition))
  }

  function Unless<T>(taken: bool, cards: seq<T>): seq<T> { if taken then [] else cards }

  function RowOf(ps: PassList, w: int, k: nat): seq<ModuleDescriptor>
    requires k < |ps|
  {
    Row(ps[k].0.identity, ps[k].0.cardConfidence, Unless(w == k, ps[k].1))
  }

  lemma OneRow(ps: PassList, w: int, k: nat)
    requires k < |ps| && ps[k].0.spillBus == Usb
    ensures Losers(ps[k..], w - k) == RowOf(ps, w, k) + Losers(ps[k + 1..], w - (k + 1))
  {
    assert ps[k..][1..] == ps[k + 1..];
    assert UsbSpills(ps[k].0, Unless(w == k, ps[k].1)) == RowOf(ps, w, k);
  }

  /** The three passes from number `k` on. */
  lemma ThreeRows(ps: PassList, w: int, k: nat)
    requires k + 3 <= |ps| && forall i :: 0 <= i < |ps| ==> ps[i].0.spillBus == Usb
    ensures Losers(ps[k..], w - k) ==
            RowOf(ps, w, k) + (RowOf(ps, w, k + 1) + (RowOf(ps, w, k + 2) + Losers(ps[k + 3..], w - (k + 3))))
  {
    OneRow(ps, w, k);
    OneRow(ps, w, k + 1);
    OneRow(ps, w, k + 2);
  }

  lemma SixRows(ps: PassList, w: int)
    requires |ps| == 6 && forall i :: 0 <= i < 6 ==> ps[i].0.spillBus == Usb
    ensures Losers(ps, w) ==
            RowOf(ps, w, 0) + (RowOf(ps, w, 1) + (RowOf(ps, w, 2) +
            (RowOf(ps, w, 3) + (RowOf(ps, w, 4) + RowOf(ps, w, 5)))))
  {
    assert ps[0..] == ps && Losers(ps[6..], w - 6) == [];
    ThreeRows(ps, w, 0);
    ThreeRows(ps, w, 3);
    assert RowOf(ps, w, 5) + [] == RowOf(ps, w, 5);
  }

  /** The USB cards left over, list by list in pass order: each list is spilled whole, save the claiming one. */
  lemma LosersListByList(d: Detections, w: nat)
    requires w <= 6
    ensures Losers(UsbPasses(d), w) ==
            Row(AudioExpansionCard, Direct, Unless(w == 0, d.audio)) +
            (Row(SsdExpansionCard, Direct, Unless(w == 1, d.ssd)) +
             (Row(UsbAExpansionCard, DerivedWeak, Unless(w == 2, d.usbA)) +
              (Row(EthernetExpansionCard, DerivedWeak, Unless(w == 3, d.ethernet)) +
               (Row(SdExpansionCard, DerivedWeak, Unless(w == 4, d.sd)) +
                Row(MicroSdExpansionCard, DerivedWeak, Unless(w == 5, d.microSd))))))
  {
    SixRows(UsbPasses(d), w);
  }

  lemma HidSpillsAreHidRow(cards: seq<HidObservation>)
    ensures HidSpills(cards) == HidRow(cards)
  {}

  /** The unclaimed cards: the HID cards unless the only one found the only port in DP alt mode, then the USB lists
      in order, save that the first one with exactly one card gives it to the only free port, if there is just
      one. */
  lemma SpilledListByList(queried: seq<PdPortState>, d: Detections)
    requires |queried| <= 6
    ensures var placed := |d.hid| == 1 && |DpSlots(PdStatesOf(queried))| == 1;
            var w := if |FreeSlots(PdStatesOf(queried))| == 1 then FirstLone(d) else 6;
            Spilled(queried, d) ==
              HidRow(Unless(placed, d.hid)) +
              (Row(AudioExpansionCard, Direct, Unless(w == 0, d.audio)) +
               (Row(SsdExpansionCard, Direct, Unless(w == 1, d.ssd)) +
                (Row(UsbAExpansionCard, DerivedWeak, Unless(w == 2, d.usbA)) +
                 (Row(EthernetExpansionCard, DerivedWeak, Unless(w == 3, d.ethernet)) +
                  (Row(SdExpansionCard, DerivedWeak, Unless(w == 4, d.sd)) +
                   Row(MicroSdExpansionCard, DerivedWeak, Unless(w == 5, d.microSd)))))))
  {
    WinnerIsFirstLone(d);
    LosersListByList(d, UsbWinner(queried, d));
    HidSpillsAreHidRow(Unless(HidSlot(queried, d).Some?, d.hid));
  }
}
