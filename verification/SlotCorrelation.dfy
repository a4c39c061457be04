/** What the local USB and HID detectors report (src/inventory/detect.rs). */
module Detect {
  import opened Abi

  datatype HidObservation = HidObservation(vendorId: Word, productId: Word)

  datatype UsbObservation = UsbObservation(vendorId: Word, productId: Word, slotIndex: I32)

  /** The seven expansion-card detection lists, each of any length. */
  datatype Detections = Detections(
    hid: seq<HidObservation>, audio: seq<UsbObservation>, ssd: seq<UsbObservation>, usbA: seq<UsbObservation>,
    ethernet: seq<UsbObservation>, sd: seq<UsbObservation>, microSd: seq<UsbObservation>)
}

/** The slot/card correlation as values: what one pass does to the tables, and the closed form that the whole
    sequence of passes amounts to (src/inventory/usb_slots.rs). */
module SlotCorrelation {
  import opened Abi
  import opened Conversions
  import opened Detect
  import Capabilities

  /** PD state per slot; None beyond the queried ports. */
  type PdStates = seq<Option<PdPortState>>

  /** The slot array, the detached array and the number of detached entries in use. */
  datatype Table = Table(slots: seq<ExpansionCard>, detached: seq<ModuleDescriptor>, count: nat)

  predicate Connected(pd: PdPortState) { !pd.cState.Nothing? }

  predicate DpAltMode(pd: PdPortState) { pd.altModeFlags & 0x03 != 0 }

  function PdFlags(pd: PdPortState): bv32 {
    (if Connected(pd) then CONNECTED else 0) |
    (if pd.hasPdContract != 0 then HAS_PD_CONTRACT else 0) |
    (if DpAltMode(pd) then DISPLAY_ALT_MODE else 0) |
    (if pd.activePort != 0 || DpAltMode(pd) then ACTIVE else 0)
  }

  // ----- positions of marked slots -----

  /** The marked positions from `from` on, in ascending order. */
  function Positions(marks: seq<bool>, from: nat): (r: seq<nat>)
    requires from <= |marks|
    ensures forall i :: 0 <= i < |r| ==> from <= r[i] < |marks| && marks[r[i]]
    ensures forall k :: from <= k < |marks| && marks[k] ==> k in r
    ensures forall i, j :: 0 <= i < j < |r| ==> r[i] < r[j]
    decreases |marks| - from
  {
    if from == |marks| then []
    else
      var rest := Positions(marks, from + 1);
      if marks[from] then [from] + rest else rest
  }

  predicate IsCandidate(pds: PdStates, slots: seq<ExpansionCard>, i: nat)
    requires i < |pds| == |slots|
  {
    pds[i].Some? && Connected(pds[i].value) && !DpAltMode(pds[i].value) && slots[i].identity == UnknownUsbCOccupant
  }

  /** Connected slots without DP alt mode that are still unidentified in `slots`. */
  function Candidates(pds: PdStates, slots: seq<ExpansionCard>): (r: seq<nat>)
    requires |pds| == |slots|
    ensures forall i :: 0 <= i < |r| ==> r[i] < |pds| && IsCandidate(pds, slots, r[i])
    ensures forall k :: 0 <= k < |pds| && IsCandidate(pds, slots, k) ==> k in r
  {
    Positions(seq(|pds|, i requires 0 <= i < |pds| => IsCandidate(pds, slots, i)), 0)
  }

  function DpSlots(pds: PdStates): (r: seq<nat>)
    ensures forall i :: 0 <= i < |r| ==> r[i] < |pds| && pds[r[i]].Some? && DpAltMode(pds[r[i]].value)
  {
    Positions(seq(|pds|, i requires 0 <= i < |pds| => pds[i].Some? && DpAltMode(pds[i].value)), 0)
  }

  /** Connected slots without DP alt mode, whatever their identity. */
  function FreeSlots(pds: PdStates): (r: seq<nat>)
    ensures forall i :: 0 <= i < |r| ==>
      r[i] < |pds| && pds[r[i]].Some? && Connected(pds[r[i]].value) && !DpAltMode(pds[r[i]].value)
  {
    Positions(seq(|pds|, i requires 0 <= i < |pds| =>
      pds[i].Some? && Connected(pds[i].value) && !DpAltMode(pds[i].value)), 0)
  }

  // ----- descriptors -----

  function MakeExpansionCard(base: ModuleDescriptor, pd: PdPortState, cardType: CardType,
                             cardConfidence: Confidence): ExpansionCard
  {
    ExpansionCard(base.identity, base.bus, base.slotKind, base.confidence, base.present, base.slotIndex,
                  base.flags, base.vendorId, base.productId, base.boardId, pd, cardType, cardConfidence,
                  UNKNOWN_CAPABILITY)
  }

  /** What one USB pass writes into a slot or into the detached list. */
  datatype UsbPass = UsbPass(identity: ModuleIdentity, slotBus: ModuleBus, spillBus: ModuleBus,
                             slotConfidence: Confidence, cardConfidence: Confidence)

  function UsbClaim(slot: ExpansionCard, si: nat, pass: UsbPass, card: UsbObservation): ExpansionCard
    requires si < 6
  {
    MakeExpansionCard(
      NewModule(pass.identity, pass.slotBus, UsbCExpansionCardSlot, pass.slotConfidence, true, si,
                slot.flags | CONNECTED, card.vendorId, card.productId, -1),
      slot.pd, ExpansionCardType(pass.identity), pass.cardConfidence)
  }

  function UsbSpill(pass: UsbPass, card: UsbObservation): ModuleDescriptor {
    NewModule(pass.identity, pass.spillBus, Detached, pass.cardConfidence, true, -1, CONNECTED,
              card.vendorId, card.productId, -1)
  }

  function UsbSpills(pass: UsbPass, cards: seq<UsbObservation>): seq<ModuleDescriptor> {
    seq(|cards|, i requires 0 <= i < |cards| => UsbSpill(pass, cards[i]))
  }

  function HidClaim(slot: ExpansionCard, si: nat, card: HidObservation): ExpansionCard
    requires si < 6
  {
    var identity := ExpansionCardIdentity(card.productId);
    MakeExpansionCard(
      NewModule(identity, Composite, UsbCExpansionCardSlot, Direct, true, si, slot.flags | CONNECTED,
                card.vendorId, card.productId, -1),
      slot.pd, ExpansionCardType(identity), Direct)
  }

  function HidSpill(card: HidObservation): ModuleDescriptor {
    NewModule(ExpansionCardIdentity(card.productId), Hid, Detached, Direct, true, -1, CONNECTED,
              card.vendorId, card.productId, -1)
  }

  function HidSpills(cards: seq<HidObservation>): seq<ModuleDescriptor> {
    seq(|cards|, i requires 0 <= i < |cards| => HidSpill(cards[i]))
  }

  // ----- the detached list -----

  function Min(a: nat, b: nat): nat { if a <= b then a else b }

  function Room(count: nat): nat { if count < 4 then 4 - count else 0 }

  /** `ds` written behind the first `count` entries, as far as the four entries go; the rest is dropped. */
  function Filled(detached: seq<ModuleDescriptor>, count: nat, ds: seq<ModuleDescriptor>): (r: seq<ModuleDescriptor>)
    requires |detached| == 4
    ensures |r| == 4
  {
    seq(4, i requires 0 <= i < 4 => if count <= i < count + |ds| then ds[i - count] else detached[i])
  }

  function Spill(t: Table, ds: seq<ModuleDescriptor>): (r: Table)
    requires |t.detached| == 4
    ensures |r.detached| == 4 && r.slots == t.slots
  {
    Table(t.slots, Filled(t.detached, t.count, ds), t.count + Min(|ds|, Room(t.count)))
  }

  lemma SpillAppend(t: Table, a: seq<ModuleDescriptor>, b: seq<ModuleDescriptor>)
    requires |t.detached| == 4
    ensures Spill(Spill(t, a), b) == Spill(t, a + b)
  {}

  // ----- single stages -----

  function InitialSlot(slot: ExpansionCard, pds: PdStates, i: nat): ExpansionCard
    requires i < |pds| == 6
  {
    if pds[i].None? then slot
    else
      var pd := pds[i].value;
      if Connected(pd) then
        MakeExpansionCard(
          NewModule(UnknownUsbCOccupant, Ec, UsbCExpansionCardSlot,
                    if DpAltMode(pd) then DerivedStrong else DerivedWeak, true, i, PdFlags(pd), 0, 0, -1),
          pd, UnknownCard, UnknownConfidence)
      else slot.(slotIndex := i, slotKind := UsbCExpansionCardSlot, pd := pd)
  }

  function RunHid(t: Table, pds: PdStates, cards: seq<HidObservation>): Table
    requires |pds| == |t.slots| == 6 && |t.detached| == 4
  {
    var dp := DpSlots(pds);
    if |cards| == 1 && |dp| == 1 then t.(slots := t.slots[dp[0] := HidClaim(t.slots[dp[0]], dp[0], cards[0])])
    else Spill(t, HidSpills(cards))
  }

  function RunUsb(t: Table, pds: PdStates, pass: UsbPass, cards: seq<UsbObservation>): (r: Table)
    requires |pds| == |t.slots| == 6 && |t.detached| == 4
    ensures |r.slots| == 6 && |r.detached| == 4
  {
    var c := Candidates(pds, t.slots);
    if |cards| == 1 && |c| == 1 then t.(slots := t.slots[c[0] := UsbClaim(t.slots[c[0]], c[0], pass, cards[0])])
    else Spill(t, UsbSpills(pass, cards))
  }

  function WithCapability(slot: ExpansionCard, platform: Platform, i: nat): ExpansionCard {
    slot.(capability := Capabilities.SlotCapability(platform, i),
          pd := if Capabilities.ClearsPd(platform, i) then DEFAULT_PD else slot.pd)
  }

  // ----- the six USB passes in order -----

  const AUDIO_PASS := UsbPass(AudioExpansionCard, Composite, Usb, DerivedWeak, Direct)
  const SSD_PASS := UsbPass(SsdExpansionCard, Usb, Usb, Direct, Direct)
  const USB_A_PASS := UsbPass(UsbAExpansionCard, Usb, Usb, DerivedWeak, DerivedWeak)
  const ETHERNET_PASS := UsbPass(EthernetExpansionCard, Usb, Usb, DerivedWeak, DerivedWeak)
  const SD_PASS := UsbPass(SdExpansionCard, Usb, Usb, DerivedWeak, DerivedWeak)
  const MICRO_SD_PASS := UsbPass(MicroSdExpansionCard, Usb, Usb, DerivedWeak, DerivedWeak)

  type PassList = seq<(UsbPass, seq<UsbObservation>)>

  function UsbPasses(d: Detections): (ps: PassList)
    ensures |ps| == 6
    ensures forall i :: 0 <= i < 6 ==>
      ps[i].0.identity != UnknownUsbCOccupant && ps[i].0.identity != NoIdentity && !ps[i].0.slotBus.Ec?
      && (ps[i].0.slotBus.Composite? ==> ps[i].0.slotConfidence.DerivedWeak?)
  {
    [(AUDIO_PASS, d.audio), (SSD_PASS, d.ssd), (USB_A_PASS, d.usbA), (ETHERNET_PASS, d.ethernet),
     (SD_PASS, d.sd), (MICRO_SD_PASS, d.microSd)]
  }

  function RunUsbPasses(t: Table, pds: PdStates, ps: PassList): (r: Table)
    requires |pds| == |t.slots| == 6 && |t.detached| == 4
    ensures |r.slots| == 6 && |r.detached| == 4
    decreases |ps|
  {
    if ps == [] then t else RunUsbPasses(RunUsb(t, pds, ps[0].0, ps[0].1), pds, ps[1..])
  }

  /** The first pass that has exactly one card; |ps| when there is none. */
  function Winner(ps: PassList): (w: nat)
    ensures w <= |ps|
    ensures w < |ps| ==> |ps[w].1| == 1
    ensures forall i :: 0 <= i < w ==> |ps[i].1| != 1
  {
    if ps == [] then 0 else if |ps[0].1| == 1 then 0 else 1 + Winner(ps[1..])
  }

  /** What every pass but number `w` would spill, in pass order. */
  function Losers(ps: PassList, w: int): seq<ModuleDescriptor> {
    if ps == [] then []
    else (if w == 0 then [] else UsbSpills(ps[0].0, ps[0].1)) + Losers(ps[1..], w - 1)
  }

  // ----- the collapse of the passes -----

  lemma ClaimExhaustsCandidates(pds: PdStates, slots: seq<ExpansionCard>, claimed: ExpansionCard)
    requires |pds| == |slots|
    requires |Candidates(pds, slots)| == 1
    requires claimed.identity != UnknownUsbCOccupant
    ensures Candidates(pds, slots[Candidates(pds, slots)[0] := claimed]) == []
  {
    var c := Candidates(pds, slots);
    var after := slots[c[0] := claimed];
    var r := Candidates(pds, after);
    if r != [] {
      var k := r[0];
      assert k in r && IsCandidate(pds, after, k);
      assert k != c[0] && IsCandidate(pds, slots, k);
    }
  }

  /** Without exactly one candidate slot no pass claims anything: every card is spilled, in pass order. */
  lemma {:induction false} WithoutACandidateAllSpill(t: Table, pds: PdStates, ps: PassList)
    requires |pds| == |t.slots| == 6 && |t.detached| == 4
    requires |Candidates(pds, t.slots)| != 1
    ensures RunUsbPasses(t, pds, ps) == Spill(t, Losers(ps, |ps|))
    decreases |ps|
  {
    if ps != [] {
      var spills := UsbSpills(ps[0].0, ps[0].1);
      WithoutACandidateAllSpill(Spill(t, spills), pds, ps[1..]);
      SpillAppend(t, spills, Losers(ps[1..], |ps| - 1));
    }
  }

  /** Closed form of any sequence of passes: with exactly one candidate slot, the first pass with exactly one
      card claims it; every other card is spilled, in pass order. */
  function Collapsed(t: Table, pds: PdStates, ps: PassList): Table
    requires |pds| == |t.slots| == 6 && |t.detached| == 4
  {
    var c := Candidates(pds, t.slots);
    var w := if |c| == 1 then Winner(ps) else |ps|;
    var spilled := Spill(t, Losers(ps, w));
    if w < |ps| then
      spilled.(slots := t.slots[c[0] := UsbClaim(t.slots[c[0]], c[0], ps[w].0, ps[w].1[0])])
    else spilled
  }

  lemma LosersPastTheEnd(ps: PassList, w: int, v: int)
    requires (w < 0 || w >= |ps|) && (v < 0 || v >= |ps|)
    ensures Losers(ps, w) == Losers(ps, v)
  {}

  lemma FirstPassWins(t: Table, pds: PdStates, ps: PassList)
    requires |pds| == |t.slots| == 6 && |t.detached| == 4
    requires ps != [] && ps[0].0.identity != UnknownUsbCOccupant
    requires |Candidates(pds, t.slots)| == 1 && |ps[0].1| == 1
    ensures RunUsbPasses(t, pds, ps) == Collapsed(t, pds, ps)
  {
    var c := Candidates(pds, t.slots);
    var claim := UsbClaim(t.slots[c[0]], c[0], ps[0].0, ps[0].1[0]);
    var after := t.(slots := t.slots[c[0] := claim]);
    ClaimExhaustsCandidates(pds, t.slots, claim);
    WithoutACandidateAllSpill(after, pds, ps[1..]);
    LosersPastTheEnd(ps[1..], -1, |ps| - 1);
    assert Losers(ps, 0) == Losers(ps[1..], |ps| - 1);
  }

  lemma FirstPassSpills(t: Table, pds: PdStates, ps: PassList)
    requires |pds| == |t.slots| == 6 && |t.detached| == 4
    requires ps != [] && |Candidates(pds, t.slots)| == 1 && |ps[0].1| != 1
    ensures Collapsed(Spill(t, UsbSpills(ps[0].0, ps[0].1)), pds, ps[1..]) == Collapsed(t, pds, ps)
  {
    var spills := UsbSpills(ps[0].0, ps[0].1);
    var w := Winner(ps);
    assert w == 1 + Winner(ps[1..]);
    assert Losers(ps, w) == spills + Losers(ps[1..], w - 1);
    SpillAppend(t, spills, Losers(ps[1..], w - 1));
  }

  lemma {:induction false} PassesCollapse(t: Table, pds: PdStates, ps: PassList)
    requires |pds| == |t.slots| == 6 && |t.detached| == 4
    requires forall i :: 0 <= i < |ps| ==> ps[i].0.identity != UnknownUsbCOccupant
    ensures RunUsbPasses(t, pds, ps) == Collapsed(t, pds, ps)
    decreases |ps|
  {
    if |Candidates(pds, t.slots)| != 1 {
      WithoutACandidateAllSpill(t, pds, ps);
    } else if ps != [] {
      if |ps[0].1| == 1 {
        FirstPassWins(t, pds, ps);
      } else {
        FirstPassSpills(t, pds, ps);
        PassesCollapse(RunUsb(t, pds, ps[0].0, ps[0].1), pds, ps[1..]);
      }
    }
  }
}
