/** The expansion bay's module: what the EC's two answers make of it (expansion_bay_status of
    src/inventory/query.rs, build_expansion_bay_module of src/inventory/builder.rs and the tables of
    src/inventory/conversions.rs). */
module Bay {
  import opened Abi
  import opened Conversions

  datatype BayBoard = UnknownBoard | DualInterposer | SingleInterposer | UmaFans | NoModule | BadConnection

  datatype BayVendor = UnknownVendor | Initializing | FanOnly | SsdHolder | PcieAccessory | AmdGpu | NvidiaGpu

  /** The EC's bay status; `board` is the interposer it decodes to. */
  datatype BayInfo = BayInfo(board: BayBoard, enabled: bool, fault: bool, doorClosed: bool)

  datatype BayStatus = BayStatus(
    present: Byte, enabled: Byte, fault: Byte, doorClosed: Byte, hasUsbCPort: Byte, board: BayBoard, vendor: BayVendor)

  function VendorFromRaw(gpuVendor: Byte): BayVendor {
    match gpuVendor
    case 0 => Initializing
    case 1 => FanOnly
    case 2 => AmdGpu
    case 3 => SsdHolder
    case 4 => PcieAccessory
    case 5 => NvidiaGpu
    case _ => UnknownVendor
  }

  function ExpansionBayIdentity(board: BayBoard, vendor: BayVendor): ModuleIdentity {
    match vendor
    case FanOnly => ExpansionBayFanOnly
    case SsdHolder => ExpansionBaySsdHolder
    case PcieAccessory => ExpansionBayPcieAccessory
    case AmdGpu => ExpansionBayAmdGpu
    case NvidiaGpu => ExpansionBayNvidiaGpu
    case _ =>
      match board
      case DualInterposer => ExpansionBayDualInterposer
      case SingleInterposer => ExpansionBaySingleInterposer
      case UmaFans => ExpansionBayUmaFans
      case _ => ExpansionBay
  }

  /** The vendor byte names what is in the bay. */
  predicate Named(vendor: BayVendor) { !vendor.UnknownVendor? && !vendor.Initializing? }

  predicate BayOccupied(board: BayBoard, vendor: BayVendor) {
    (!board.NoModule? && !board.UnknownBoard?) || Named(vendor)
  }

  /** Both queries must answer. */
  function ExpansionBayStatus(info: Option<BayInfo>, gpuVendor: Option<Byte>): Option<BayStatus> {
    if info.None? || gpuVendor.None? then None
    else
      var board, vendor := info.value.board, VendorFromRaw(gpuVendor.value);
      var present :=
        !(board.NoModule? || board.UnknownBoard?) ||
        vendor in {FanOnly, SsdHolder, PcieAccessory, AmdGpu, NvidiaGpu};
      Some(BayStatus(
        if present then 1 else 0, if info.value.enabled then 1 else 0, if info.value.fault then 1 else 0,
        if info.value.doorClosed then 1 else 0, if vendor.AmdGpu? || vendor.NvidiaGpu? then 1 else 0, board, vendor))
  }

  function BayFlags(enabled: bool, fault: bool, doorClosed: bool): bv32 {
    (if enabled then ENABLED else 0) | (if fault then FAULT else 0) |
    (if doorClosed then DOOR_CLOSED else 0) | CONNECTED
  }

  /** The published bay: shown exactly when both queries answer and the bay is occupied. */
  function BayModule(info: Option<BayInfo>, gpuVendor: Option<Byte>): ModuleDescriptor {
    if info.None? || gpuVendor.None? || !BayOccupied(info.value.board, VendorFromRaw(gpuVendor.value)) then
      DEFAULT_MODULE
    else
      ModuleDescriptor(ExpansionBayIdentity(info.value.board, VendorFromRaw(gpuVendor.value)), Ec, ExpansionBaySlot,
                       Direct, 1, 0, BayFlags(info.value.enabled, info.value.fault, info.value.doorClosed),
                       0, 0, -1, UnknownPosition)
  }

  /** The identity by the EC's raw vendor byte, and by the interposer when the byte names nothing. */
  predicate BayNamed(board: BayBoard, gpuVendor: Byte, identity: ModuleIdentity) {
    && (identity == ExpansionBayFanOnly <==> gpuVendor == 1)
    && (identity == ExpansionBayAmdGpu <==> gpuVendor == 2)
    && (identity == ExpansionBaySsdHolder <==> gpuVendor == 3)
    && (identity == ExpansionBayPcieAccessory <==> gpuVendor == 4)
    && (identity == ExpansionBayNvidiaGpu <==> gpuVendor == 5)
    && var unnamed := gpuVendor == 0 || gpuVendor > 5;
       && (identity == ExpansionBayDualInterposer <==> unnamed && board == DualInterposer)
       && (identity == ExpansionBaySingleInterposer <==> unnamed && board == SingleInterposer)
       && (identity == ExpansionBayUmaFans <==> unnamed && board == UmaFans)
  }

  method BuildExpansionBayModule(info: Option<BayInfo>, gpuVendor: Option<Byte>) returns (m: ModuleDescriptor)
    ensures m == BayModule(info, gpuVendor)
    ensures m.present == 1 <==>
            && info.Some? && gpuVendor.Some?
            && (info.value.board !in {NoModule, UnknownBoard} || 1 <= gpuVendor.value <= 5)
    ensures m.present == 1 ==>
            && (m.flags & ENABLED != 0 <==> info.value.enabled) && (m.flags & FAULT != 0 <==> info.value.fault)
            && (m.flags & DOOR_CLOSED != 0 <==> info.value.doorClosed) && m.flags & CONNECTED != 0
            && BayNamed(info.value.board, gpuVendor.value, m.identity)
            && m.bus == Ec && m.slotKind == ExpansionBaySlot && m.confidence == Direct && m.slotIndex == 0
            && m.vendorId == m.productId == 0 && m.boardId == -1
  {
    m := DEFAULT_MODULE;
    var status := ExpansionBayStatus(info, gpuVendor);
    if status.Some? && status.value.present != 0 {
      var bay := status.value;
      var flags: bv32 := 0;
      if bay.enabled != 0 { flags := flags | ENABLED; }
      if bay.fault != 0 { flags := flags | FAULT; }
      if bay.doorClosed != 0 { flags := flags | DOOR_CLOSED; }
      flags := flags | CONNECTED;
      m := NewModule(ExpansionBayIdentity(bay.board, bay.vendor), Ec, ExpansionBaySlot, Direct, true, 0, flags,
                     0, 0, -1);
    }
  }

  /** The flags of a shown bay are the EC's three bits and Connected, each on its own, and no other. */
  lemma BayFlagsBits(enabled: bool, fault: bool, doorClosed: bool)
    ensures var flags := BayFlags(enabled, fault, doorClosed);
            && (flags & ENABLED != 0 <==> enabled) && (flags & FAULT != 0 <==> fault)
            && (flags & DOOR_CLOSED != 0 <==> doorClosed) && flags & CONNECTED != 0
            && flags & !(ENABLED | FAULT | DOOR_CLOSED | CONNECTED) == 0
  {}

  /** The identity tells the contents: two bays shown alike hold the same named contents, or the same interposer
      when neither is named. Only a badly connected board goes under the bare identity. */
  lemma BayIdentityTellsContents(a: BayBoard, v: BayVendor, b: BayBoard, w: BayVendor)
    requires BayOccupied(a, v) && BayOccupied(b, w) && ExpansionBayIdentity(a, v) == ExpansionBayIdentity(b, w)
    ensures Named(v) == Named(w) && if Named(v) then v == w else a == b
    ensures ExpansionBayIdentity(a, v) == ExpansionBay <==> !Named(v) && a.BadConnection?
  {}
}
