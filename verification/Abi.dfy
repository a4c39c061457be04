/** Enumerations and records of the C ABI that the inventory code reads and writes (src/lib.rs),
    together with the machine integer types used throughout. Padding and `reserved` fields are dropped. */
module Abi {

  type Byte = x: int | 0 <= x < 0x100
  type Word = x: int | 0 <= x < 0x1_0000
  type U32 = x: int | 0 <= x < 0x1_0000_0000
  type I32 = x: int | -0x8000_0000 <= x < 0x8000_0000

  const I32_MAX: I32 := 0x7fff_ffff

  datatype Option<+T> = None | Some(value: T)

  datatype Result<+T, +E> = Ok(value: T) | Err(error: E)

  datatype Platform =
    | Framework12IntelGen13 | IntelGen11 | IntelGen12 | IntelGen13 | IntelCoreUltra1
    | Framework13Amd7080 | Framework13AmdAi300 | Framework16Amd7080 | Framework16AmdAi300
    | FrameworkDesktopAmdAiMax300 | GenericFramework | UnknownSystem | IntelCoreUltra3

  datatype PlatformFamily = Framework12 | Framework13 | Framework16 | FrameworkDesktop

  datatype ModuleIdentity =
    | NoIdentity | UnknownUsbCOccupant | DpExpansionCard | HdmiExpansionCard | AudioExpansionCard
    | Framework16KeyboardModule | Framework16LedMatrix | Framework16TouchpadModule
    | InternalKeyboard | InternalTouchpad | FingerprintReader | Touchscreen | Webcam
    | ExpansionBay | ExpansionBayDualInterposer | ExpansionBaySingleInterposer | ExpansionBayUmaFans
    | ExpansionBaySsdHolder | ExpansionBayPcieAccessory | ExpansionBayAmdGpu | ExpansionBayNvidiaGpu
    | ExpansionBayFanOnly | UsbAExpansionCard | UsbCExpansionCard | EthernetExpansionCard
    | Ethernet10GExpansionCard | MicroSdExpansionCard | SdExpansionCard | SsdExpansionCard

  datatype ModuleBus = UnknownBus | Ec | Usb | Hid | Composite

  datatype SlotKind =
    | NoSlot | UsbCPort | InputDeckTopRow | InputDeckTouchpad | ExpansionBaySlot | InternalFixed
    | Detached | UsbCExpansionCardSlot

  datatype Confidence = UnknownConfidence | DerivedWeak | DerivedStrong | Direct

  // FrameworkModuleFlag
  const BUILT_IN: bv32 := 0x01
  const ACTIVE: bv32 := 0x02
  const CONNECTED: bv32 := 0x04
  const FAULT: bv32 := 0x08
  const HAS_PD_CONTRACT: bv32 := 0x20
  const DISPLAY_ALT_MODE: bv32 := 0x40
  const DOOR_CLOSED: bv32 := 0x80
  const ENABLED: bv32 := 0x100

  datatype CardType =
    | UnknownCard | DisplayPort | Hdmi | Audio | UsbA | UsbC | Ethernet | Ethernet10G | MicroSd | Sd | Ssd

  datatype DataLane = UnknownLane | Usb2 | Usb32 | Usb32Gen2x1 | Usb32Gen2x2 | Usb4 | Thunderbolt4

  datatype DisplayPortVersion =
    | NoDp | Dp14Hbr3 | Dp20 | Dp20Uhbr10 | Dp20Uhbr20 | Dp21 | Dp21Uhbr10 | Dp21Uhbr20 | Supported

  datatype PortPosition =
    | UnknownPort | RightBack | RightMiddle | RightFront | LeftMiddle | LeftFront | LeftBack | GraphicsModule

  datatype PortCapability = PortCapability(
    known: Byte, supportsPd: Byte, usbAHighPower: Byte, position: PortPosition,
    dataLane: DataLane, displayPort: DisplayPortVersion, maxChargeWatts: Word)

  datatype TypeCState = Nothing | Sink | Source | Debug | AudioAccessory | PoweredAccessory | Unsupported | Invalid
  datatype PowerRole = PowerSink | PowerSource | UnknownPowerRole
  datatype DataRole = Ufp | Dfp | Disconnected | UnknownDataRole
  datatype CcPolarity = UnknownPolarity | Cc1 | Cc2 | Cc1Debug | Cc2Debug

  datatype PdPortState = PdPortState(
    cState: TypeCState, powerRole: PowerRole, dataRole: DataRole, ccPolarity: CcPolarity,
    voltageMv: Word, currentMa: Word, hasPdContract: Byte, vconnActive: Byte,
    eprActive: Byte, eprSupport: Byte, activePort: Byte, altModeFlags: bv8)

  const DEFAULT_PD: PdPortState :=
    PdPortState(Nothing, UnknownPowerRole, UnknownDataRole, UnknownPolarity, 0, 0, 0, 0, 0, 0, 0, 0)

  datatype InputPosition = UnknownPosition | TopRow0 | TopRow1 | TopRow2 | TopRow3 | TopRow4 | TouchpadPosition | HubBoardPosition

  datatype ModuleDescriptor = ModuleDescriptor(
    identity: ModuleIdentity, bus: ModuleBus, slotKind: SlotKind, confidence: Confidence,
    present: Byte, slotIndex: I32, flags: bv32, vendorId: U32, productId: U32, boardId: I32,
    position: InputPosition)

  datatype ExpansionCard = ExpansionCard(
    identity: ModuleIdentity, bus: ModuleBus, slotKind: SlotKind, confidence: Confidence,
    present: Byte, slotIndex: I32, flags: bv32, vendorId: U32, productId: U32, boardId: I32,
    pd: PdPortState, cardType: CardType, cardConfidence: Confidence, capability: PortCapability)

  const DEFAULT_MODULE: ModuleDescriptor :=
    ModuleDescriptor(NoIdentity, UnknownBus, NoSlot, UnknownConfidence, 0, -1, 0, 0, 0, -1, UnknownPosition)

  const UNKNOWN_CAPABILITY: PortCapability :=
    PortCapability(0, 0, 0, UnknownPort, UnknownLane, NoDp, 0)

  const DEFAULT_EXPANSION_CARD: ExpansionCard :=
    ExpansionCard(NoIdentity, UnknownBus, NoSlot, UnknownConfidence, 0, -1, 0, 0, 0, -1,
                  DEFAULT_PD, UnknownCard, UnknownConfidence, UNKNOWN_CAPABILITY)
}
