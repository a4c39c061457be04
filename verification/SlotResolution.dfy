/** What the whole slot engine computes, stated without its passes, and the laws of that result. */
module SlotResolution {
  import opened Abi
  import opened Conversions
  import opened Detect
  import opened SlotCorrelation
  import Capabilities

  /** The queried ports as the engine keeps them: one entry per slot, None past the queried ones. */
  function PdStatesOf(queried: seq<PdPortState>): (pds: PdStates)
    requires |queried| <= 6
    ensures |pds| == 6
  {
    seq(6, i => if 0 <= i < |queried| then Some(queried[i]) else None)
  }

  // ----- the stages composed -----

  function InitialSlots(slots: seq<ExpansionCard>, pds: PdStates): (r: seq<ExpansionCard>)
    requires |slots| == |pds| == 6
    ensures |r| == 6
  {
    seq(6, i requires 0 <= i < 6 => InitialSlot(slots[i], pds, i))
  }

  function CapableSlots(slots: seq<ExpansionCard>, platform: Platform, count: nat): (r: seq<ExpansionCard>)
    ensures |r| == |slots|
  {
    seq(|slots|, i requires 0 <= i < |slots| => if i < count then WithCapability(slots[i], platform, i) else slots[i])
  }

  /** The tables when the first USB pass starts. */
  function AfterHid(before: Table, queried: seq<PdPortState>, d: Detections): (t: Table)
    requires |before.slots| == 6 && |before.detached| == 4 && |queried| <= 6
    ensures |t.slots| == 6 && |t.detached| == 4
  {
    var pds := PdStatesOf(queried);
    RunHid(before.(slots := InitialSlots(before.slots, pds)), pds, d.hid)
  }

  /** The engine stage by stage: initial slots, HID pass, six USB passes, capabilities. */
  function Pipeline(before: Table, queried: seq<PdPortState>, d: Detections, platform: Platform): Table
    requires |before.slots| == 6 && |before.detached| == 4 && |queried| <= 6
  {
    var done := RunUsbPasses(AfterHid(before, queried, d), PdStatesOf(queried), UsbPasses(d));
    done.(slots := CapableSlots(done.slots, platform, |queried|))
  }

  // ----- the result, directly from the queried ports and the seven lists -----

  /** The slot the single HID card goes to. */
  function HidSlot(queried: seq<PdPortState>, d: Detections): Option<nat>
    requires |queried| <= 6
  {
    var dp := DpSlots(PdStatesOf(queried));
    if |d.hid| == 1 && |dp| == 1 then Some(dp[0]) else None
  }

  /** The USB pass that claims a slot, as an index into UsbPasses(d); 6 when none does. */
  function UsbWinner(queried: seq<PdPortState>, d: Detections): (w: nat)
    requires |queried| <= 6
    ensures w <= 6
    ensures w < 6 ==> |UsbPasses(d)[w].1| == 1 && |FreeSlots(PdStatesOf(queried))| == 1
  {
    if |FreeSlots(PdStatesOf(queried))| == 1 then Winner(UsbPasses(d)) else 6
  }

  /** The slot of the claiming USB pass. */
  function UsbSlot(queried: seq<PdPortState>, d: Detections): (u: Option<nat>)
    requires |queried| <= 6
    ensures u.Some? ==> u.value < 6
  {
    if UsbWinner(queried, d) < 6 then Some(FreeSlots(PdStatesOf(queried))[0]) else None
  }

  /** Every card no slot claimed, in pass order. */
  function Spilled(queried: seq<PdPortState>, d: Detections): seq<ModuleDescriptor>
    requires |queried| <= 6
  {
    (if HidSlot(queried, d).Some? then [] else HidSpills(d.hid)) + Losers(UsbPasses(d), UsbWinner(queried, d))
  }

  /** What claims a slot, if anything. */
  datatype Claim = NoClaim | ByHid(hidCard: HidObservation) | ByUsb(pass: UsbPass, usbCard: UsbObservation)

  function ClaimAt(i: nat, queried: seq<PdPortState>, d: Detections): Claim
    requires |queried| <= 6
  {
    if HidSlot(queried, d) == Some(i) then ByHid(d.hid[0])
    else if UsbSlot(queried, d) == Some(i) then
      var (pass, cards) := UsbPasses(d)[UsbWinner(queried, d)]; ByUsb(pass, cards[0])
    else NoClaim
  }

  function Placed(initial: ExpansionCard, i: nat, claim: Claim): ExpansionCard
    requires i < 6
  {
    match claim
    case NoClaim => initial
    case ByHid(card) => HidClaim(initial, i, card)
    case ByUsb(pass, card) => UsbClaim(initial, i, pass, card)
  }

  /** Slot `i` before the capability pass. */
  function Occupant(slot: ExpansionCard, i: nat, queried: seq<PdPortState>, d: Detections): ExpansionCard
    requires i < 6 && |queried| <= 6
  {
    Placed(InitialSlot(slot, PdStatesOf(queried), i), i, ClaimAt(i, queried, d))
  }

  function PublishedSlot(slot: ExpansionCard, i: nat, queried: seq<PdPortState>, d: Detections,
                         platform: Platform): ExpansionCard
    requires i < 6 && |queried| <= 6
  {
    var occupant := Occupant(slot, i, queried, d);
    if i < |queried| then WithCapability(occupant, platform, i) else occupant
  }

  function Resolved(before: Table, queried: seq<PdPortState>, d: Detections, platform: Platform): (t: Table)
    requires |before.slots| == 6 && |before.detached| == 4 && |queried| <= 6
    ensures |t.slots| == 6 && |t.detached| == 4
  {
    Spill(before, Spilled(queried, d)).(
      slots := seq(6, i requires 0 <= i < 6 => PublishedSlot(before.slots[i], i, queried, d, platform)))
  }

  /** Until a USB pass claims a slot, its candidates are the free slots: the HID pass never takes one of them,
      and every connected slot starts out unidentified. */
  lemma CandidatesAreFreeSlots(t: Table, pds: PdStates, slots: seq<ExpansionCard>, hid: seq<HidObservation>)
    requires |slots| == |pds| == 6 && |t.detached| == 4
    requires t.slots == InitialSlots(slots, pds)
    ensures Candidates(pds, RunHid(t, pds, hid).slots) == FreeSlots(pds)
  {
    var after := RunHid(t, pds, hid).slots;
    forall i | 0 <= i < 6
      ensures IsCandidate(pds, after, i) <==>
        pds[i].Some? && Connected(pds[i].value) && !DpAltMode(pds[i].value)
    {
      var dp := DpSlots(pds);
      if |hid| == 1 && |dp| == 1 && i == dp[0] {
      } else {
        assert after[i] == InitialSlot(slots[i], pds, i);
      }
    }
    assert seq(|pds|, i requires 0 <= i < |pds| => IsCandidate(pds, after, i))
        == seq(|pds|, i requires 0 <= i < |pds| =>
             pds[i].Some? && Connected(pds[i].value) && !DpAltMode(pds[i].value));
  }

  lemma HidStageLeaves(before: Table, queried: seq<PdPortState>, d: Detections, i: nat)
    requires |before.slots| == 6 && |before.detached| == 4 && |queried| <= 6 && i < 6
    ensures var initial := InitialSlot(before.slots[i], PdStatesOf(queried), i);
            AfterHid(before, queried, d).slots[i] ==
            if HidSlot(queried, d) == Some(i) then HidClaim(initial, i, d.hid[0]) else initial
  {}

  lemma UsbStageLeaves(before: Table, queried: seq<PdPortState>, d: Detections, i: nat)
    requires |before.slots| == 6 && |before.detached| == 4 && |queried| <= 6 && i < 6
    ensures var t := AfterHid(before, queried, d);
            Collapsed(t, PdStatesOf(queried), UsbPasses(d)).slots[i] ==
            if UsbSlot(queried, d) == Some(i) then
              var (pass, cards) := UsbPasses(d)[UsbWinner(queried, d)]; UsbClaim(t.slots[i], i, pass, cards[0])
            else t.slots[i]
  {
    var pds := PdStatesOf(queried);
    CandidatesAreFreeSlots(before.(slots := InitialSlots(before.slots, pds)), pds, before.slots, d.hid);
  }

  lemma ClaimsAreApart(queried: seq<PdPortState>, d: Detections)
    requires |queried| <= 6
    ensures HidSlot(queried, d).Some? ==> HidSlot(queried, d) != UsbSlot(queried, d)
  {}

  lemma CollapseLeavesOccupants(before: Table, queried: seq<PdPortState>, d: Detections)
    requires |before.slots| == 6 && |before.detached| == 4 && |queried| <= 6
    ensures Collapsed(AfterHid(before, queried, d), PdStatesOf(queried), UsbPasses(d)).slots
         == seq(6, i requires 0 <= i < 6 => Occupant(before.slots[i], i, queried, d))
  {
    var done := Collapsed(AfterHid(before, queried, d), PdStatesOf(queried), UsbPasses(d)).slots;
    ClaimsAreApart(queried, d);
    forall i | 0 <= i < 6 ensures done[i] == Occupant(before.slots[i], i, queried, d) {
      HidStageLeaves(before, queried, d, i);
      UsbStageLeaves(before, queried, d, i);
    }
  }

  lemma CollapseLeavesSpilled(before: Table, queried: seq<PdPortState>, d: Detections)
    requires |before.slots| == 6 && |before.detached| == 4 && |queried| <= 6
    ensures var done := Collapsed(AfterHid(before, queried, d), PdStatesOf(queried), UsbPasses(d));
            var spilled := Spill(before, Spilled(queried, d));
            done.detached == spilled.detached && done.count == spilled.count
  {
    var pds := PdStatesOf(queried);
    var start := before.(slots := InitialSlots(before.slots, pds));
    CandidatesAreFreeSlots(start, pds, before.slots, d.hid);
    var losers := Losers(UsbPasses(d), UsbWinner(queried, d));
    if HidSlot(queried, d).None? {
      SpillAppend(start, HidSpills(d.hid), losers);
    } else {
      assert Spilled(queried, d) == losers;
    }
  }

  lemma CapableOccupants(before: Table, queried: seq<PdPortState>, d: Detections, platform: Platform)
    requires |before.slots| == 6 && |before.detached| == 4 && |queried| <= 6
    ensures CapableSlots(seq(6, i requires 0 <= i < 6 => Occupant(before.slots[i], i, queried, d)), platform, |queried|)
         == Resolved(before, queried, d, platform).slots
  {}

  /** The seven ordered passes amount to the closed form. */
  lemma PipelineIsResolved(before: Table, queried: seq<PdPortState>, d: Detections, platform: Platform)
    requires |before.slots| == 6 && |before.detached| == 4 && |queried| <= 6
    ensures Pipeline(before, queried, d, platform) == Resolved(before, queried, d, platform)
  {
    PassesCollapse(AfterHid(before, queried, d), PdStatesOf(queried), UsbPasses(d));
    CollapseLeavesSpilled(before, queried, d);
    CollapseLeavesOccupants(before, queried, d);
    CapableOccupants(before, queried, d, platform);
  }
}
