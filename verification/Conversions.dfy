/** Descriptor construction and identity lookups (src/inventory/conversions.rs, capabilities.rs). */
module Conversions {
  import opened Abi

  // Product ids of the two HID display cards (FFI_NOTES.md, expansion card table).
  const DP_CARD_PID: Word := 0x0003
  const HDMI_CARD_PID: Word := 0x0002
  const LEDMATRIX_PID: Word := 0x0020

  function NewModule(identity: ModuleIdentity, bus: ModuleBus, slotKind: SlotKind, confidence: Confidence,
                     present: bool, slotIndex: I32, flags: bv32, vendorId: U32, productId: U32,
                     boardId: I32): ModuleDescriptor
  {
    ModuleDescriptor(identity, bus, slotKind, confidence, if present then 1 else 0, slotIndex, flags,
                     vendorId, productId, boardId, UnknownPosition)
  }

  function ExpansionCardIdentity(productId: Word): ModuleIdentity {
    if productId == DP_CARD_PID then DpExpansionCard
    else if productId == HDMI_CARD_PID then HdmiExpansionCard
    else UnknownUsbCOccupant
  }

  function ExpansionCardType(identity: ModuleIdentity): CardType {
    match identity
    case DpExpansionCard => DisplayPort
    case HdmiExpansionCard => Hdmi
    case AudioExpansionCard => Audio
    case UsbAExpansionCard => UsbA
    case UsbCExpansionCard => UsbC
    case EthernetExpansionCard => Ethernet
    case Ethernet10GExpansionCard => Ethernet10G
    case MicroSdExpansionCard => MicroSd
    case SdExpansionCard => Sd
    case SsdExpansionCard => Ssd
    case _ => UnknownCard
  }

  function Framework16TopRowIdentity(productId: Word): ModuleIdentity {
    if productId == LEDMATRIX_PID then Framework16LedMatrix else Framework16KeyboardModule
  }
}

/** Per-platform board tables of the USB-C slots (src/inventory/capabilities.rs). */
module Capabilities {
  import opened Abi

  function Cap(lane: DataLane, dp: DisplayPortVersion, supportsPd: bool, watts: Word, highPower: bool): PortCapability {
    PortCapability(1, if supportsPd then 1 else 0, if highPower then 1 else 0, UnknownPort, lane, dp, watts)
  }

  function Same(n: nat, c: PortCapability): seq<PortCapability> {
    seq(n, _ => c)
  }

  /** The documented slots of a platform, in port order; empty where nothing is documented. */
  function BoardTable(platform: Platform): seq<PortCapability> {
    match platform
    case Framework16AmdAi300 =>
      [Cap(Usb4, Dp21Uhbr10, true, 240, true), Cap(Usb32, Dp14Hbr3, true, 240, false),
       Cap(Usb32, Dp21Uhbr10, true, 240, false), Cap(Usb4, Dp21Uhbr10, true, 240, true)]
    case Framework16Amd7080 =>
      [Cap(Usb4, Supported, true, 240, true), Cap(Usb32, NoDp, true, 240, false),
       Cap(Usb32, Supported, true, 240, false), Cap(Usb4, Supported, true, 240, true)]
    case Framework13AmdAi300 =>
      [Cap(Usb4, Dp20Uhbr20, true, 100, true), Cap(Usb32Gen2x1, Dp20Uhbr10, true, 100, false),
       Cap(Usb4, Dp20Uhbr20, true, 100, true), Cap(Usb32Gen2x1, Dp14Hbr3, true, 100, false)]
    case Framework13Amd7080 =>
      [Cap(Usb4, Dp14Hbr3, true, 100, true), Cap(Usb32Gen2x1, NoDp, true, 100, false),
       Cap(Usb4, Dp14Hbr3, true, 100, true), Cap(Usb32Gen2x1, Dp14Hbr3, true, 100, false)]
    case IntelGen11 => Same(4, Cap(Thunderbolt4, Dp14Hbr3, true, 100, false))
    case IntelGen12 => Same(4, Cap(Thunderbolt4, Dp14Hbr3, true, 100, false))
    case IntelGen13 => Same(4, Cap(Thunderbolt4, Dp14Hbr3, true, 100, false))
    case IntelCoreUltra1 => Same(4, Cap(Thunderbolt4, Dp20, true, 100, false))
    case IntelCoreUltra3 => Same(4, Cap(Thunderbolt4, Dp21Uhbr20, true, 140, false))
    case Framework12IntelGen13 =>
      Same(2, Cap(Usb32Gen2x1, Dp14Hbr3, true, 64, false)) + Same(2, Cap(Usb32Gen2x2, Dp14Hbr3, true, 64, false))
    case FrameworkDesktopAmdAiMax300 => Same(2, Cap(Usb32, NoDp, false, 0, false))
    case GenericFramework => []
    case UnknownSystem => []
  }

  function PortPositionOf(platform: Platform, index: nat): PortPosition {
    var fl16 := platform.Framework16Amd7080? || platform.Framework16AmdAi300?;
    var isLaptop :=
      fl16 || platform.Framework12IntelGen13? || platform.Framework13Amd7080? || platform.Framework13AmdAi300?
      || platform.IntelGen11? || platform.IntelGen12? || platform.IntelGen13?
      || platform.IntelCoreUltra1? || platform.IntelCoreUltra3?;
    if !isLaptop then UnknownPort
    else if index == 0 then RightBack
    else if index == 1 then (if fl16 then RightMiddle else RightFront)
    else if index == 2 then (if fl16 then LeftMiddle else LeftFront)
    else if index == 3 then LeftBack
    else UnknownPort
  }

  function SlotCapability(platform: Platform, index: nat): PortCapability {
    var table := BoardTable(platform);
    if platform.GenericFramework? || platform.UnknownSystem? then UNKNOWN_CAPABILITY
    else
      var capability := if index < |table| then table[index] else UNKNOWN_CAPABILITY;
      capability.(position := PortPositionOf(platform, index))
  }

  /** The slots whose PD state the final pass of the slot engine clears. */
  predicate ClearsPd(platform: Platform, index: nat) {
    var capability := SlotCapability(platform, index);
    capability.known != 0 && capability.supportsPd == 0
  }

  /** Only the two Desktop slots are known not to support PD: no laptop slot is ever cleared. */
  lemma ClearsPdOnlyOnDesktop(platform: Platform, index: nat)
    ensures ClearsPd(platform, index) <==> platform == FrameworkDesktopAmdAiMax300 && index < 2
  {}

  predicate IsLaptop(platform: Platform) {
    platform !in {FrameworkDesktopAmdAiMax300, GenericFramework, UnknownSystem}
  }

  /** The documented slots: the four ports of every laptop and the two of the Desktop. */
  lemma DocumentedSlots(platform: Platform, index: nat)
    ensures SlotCapability(platform, index).known == 1 <==>
            (IsLaptop(platform) && index < 4) || (platform == FrameworkDesktopAmdAiMax300 && index < 2)
    ensures SlotCapability(platform, index).known == 0 || SlotCapability(platform, index).known == 1
  {}

  /** On a laptop ports 0 and 1 are on the right and ports 2 and 3 on the left, starting and ending at the back;
      in between they are in the middle on Framework 16 and at the front elsewhere. */
  lemma PortSides(platform: Platform, index: nat)
    ensures var position := SlotCapability(platform, index).position;
            var fl16 := platform in {Framework16Amd7080, Framework16AmdAi300};
            && (position in {RightBack, RightMiddle, RightFront} <==> IsLaptop(platform) && index < 2)
            && (position in {LeftBack, LeftMiddle, LeftFront} <==> IsLaptop(platform) && 2 <= index < 4)
            && (position in {RightBack, LeftBack} <==> IsLaptop(platform) && (index == 0 || index == 3))
            && (position in {RightMiddle, LeftMiddle} <==> fl16 && 1 <= index <= 2)
            && position != GraphicsModule
  {}
}
