/** Records that own several buffers: how they are built and how they are freed (src/smart_battery.rs and the
    aggregate builders and frees of src/lib.rs). A record's buffer fields are an array in declaration order. */
module Aggregates {
  import opened Abi
  import opened ByteBuffers

  const BATTERY_BUFFERS: nat := 10
  const PERIPHERAL_SLOTS: nat := 8

  /** Position of the state-of-health block among the battery record's buffer fields. */
  const STATE_OF_HEALTH: nat := 3

  class SmartBatteryData {
    var unsealed: Byte
    const buffers: array<ByteBuffer>

    constructor (unsealed: Byte, buffers: array<ByteBuffer>)
      ensures this.unsealed == unsealed && this.buffers == buffers
    {
      this.unsealed := unsealed;
      this.buffers := buffers;
    }
  }

  datatype PeripheralVersion = PeripheralVersion(
    present: Byte, major: Byte, minor: Byte, subMinor: Byte, vendorId: Word, productId: Word, productName: ByteBuffer)

  const NO_PERIPHERAL: PeripheralVersion := PeripheralVersion(0, 0, 0, 0, 0, 0, NULL_BUFFER)

  datatype FoundPeripheral = FoundPeripheral(
    vendorId: Word, productId: Word, major: Byte, minor: Byte, subMinor: Byte, productName: Vec)

  class PeripheralVersionsResult {
    var count: Byte
    const peripherals: array<PeripheralVersion>

    constructor (count: Byte, peripherals: array<PeripheralVersion>)
      ensures this.count == count && this.peripherals == peripherals
    {
      this.count := count;
      this.peripherals := peripherals;
    }
  }

  function Names(found: seq<FoundPeripheral>): seq<Vec> {
    seq(|found|, i requires 0 <= i < |found| => found[i].productName)
  }

  function NameBuffers(ps: seq<PeripheralVersion>): seq<ByteBuffer> {
    seq(|ps|, i requires 0 <= i < |ps| => ps[i].productName)
  }

  function Nulls(n: nat): seq<ByteBuffer> { seq(n, _ => NULL_BUFFER) }

  function Published(p: FoundPeripheral): PeripheralVersion {
    PeripheralVersion(1, p.major, p.minor, p.subMinor, p.vendorId, p.productId, BufferOf(p.productName))
  }

  /** What an aggregate free does to the heap and to the record's buffers. */
  function Freed(live: Blocks, bs: seq<ByteBuffer>): (Blocks, seq<ByteBuffer>) {
    (live - Owned(bs), Nulls(|bs|))
  }

  /** Moves the ten vectors of a battery reading into the record; nothing is allocated or freed. */
  method IntoFfi(heap: Heap, data: seq<Vec>) returns (record: SmartBatteryData)
    requires |data| == BATTERY_BUFFERS && VecsOk(heap.live, data)
    ensures fresh(record) && fresh(record.buffers)
    ensures record.buffers[..] == BuffersOf(data)
    ensures record.buffers.Length == 10 && forall j :: 0 <= j < 10 ==>
      && record.buffers[j].ptr == data[j].ptr && record.buffers[j].length == data[j].length
      && record.buffers[j].capacity == data[j].capacity
    ensures AllReleasable(heap.live, record.buffers[..])
    ensures record.unsealed == if data[3].length > 0 then 1 else 0
  {
    var unsealed: Byte := if data[STATE_OF_HEALTH].length != 0 then 1 else 0;
    var buffers := new ByteBuffer[BATTERY_BUFFERS](_ => NULL_BUFFER);
    for i := 0 to BATTERY_BUFFERS
      invariant forall j :: 0 <= j < i ==> buffers[j] == BufferOf(data[j])
    {
      buffers[i] := heap.FromVec(data[i]);
    }
    record := new SmartBatteryData(unsealed, buffers);
  }

  /** Frees every buffer field, leaving the null buffer behind; passing null does nothing. */
  method SmartBatteryDataFree(heap: Heap, record: SmartBatteryData?)
    requires record != null ==> AllReleasable(heap.live, record.buffers[..])
    modifies heap, if record != null then {record.buffers} else {}
    ensures record == null ==> heap.live == old(heap.live)
    ensures record != null ==> (heap.live, record.buffers[..]) == Freed(old(heap.live), old(record.buffers[..]))
  {
    if record == null { return; }
    ghost var all := record.buffers[..];
    for i := 0 to record.buffers.Length
      invariant forall j :: 0 <= j < i ==> record.buffers[j] == NULL_BUFFER
      invariant record.buffers[i..] == all[i..]
      invariant heap.live == old(heap.live) - Owned(all[..i])
    {
      var owned := record.buffers[i];
      assert owned == all[i..][0] == all[i];
      record.buffers[i] := NULL_BUFFER;
      ReleaseOneMore(old(heap.live), all, i);
      heap.Destroy(owned);
      assert record.buffers[i + 1..] == all[i..][1..];
    }
    assert all[..|all|] == all && record.buffers[..] == Nulls(|all|);
  }

  function Kept(n: nat): (kept: nat)
    ensures kept <= n
  {
    if n < PERIPHERAL_SLOTS then n else PERIPHERAL_SLOTS
  }

  /** A slot shows the version, the ids and the name of what was found. */
  predicate ShownAs(slot: PeripheralVersion, p: FoundPeripheral) {
    && slot.present == 1 && slot.major == p.major && slot.minor == p.minor && slot.subMinor == p.subMinor
    && slot.vendorId == p.vendorId && slot.productId == p.productId
    && slot.productName.ptr == p.productName.ptr && slot.productName.length == p.productName.length
    && slot.productName.capacity == p.productName.capacity
  }

  predicate Unused(slot: PeripheralVersion) {
    && slot.present == slot.major == slot.minor == slot.subMinor == 0 && slot.vendorId == slot.productId == 0
    && slot.productName.ptr == 0 && slot.productName.length == slot.productName.capacity == 0
  }

  /** The first eight peripherals in order; slots beyond them are empty. */
  predicate PublishedIn(slots: seq<PeripheralVersion>, found: seq<FoundPeripheral>) {
    && |slots| == PERIPHERAL_SLOTS
    && forall j :: 0 <= j < PERIPHERAL_SLOTS ==> slots[j] == if j < |found| then Published(found[j]) else NO_PERIPHERAL
  }

  /** The first eight peripherals, each owning its name; the vectors of any further ones are dropped. */
  method BuildPeripheralVersions(heap: Heap, found: seq<FoundPeripheral>) returns (result: PeripheralVersionsResult)
    requires VecsOk(heap.live, Names(found))
    modifies heap
    ensures fresh(result) && fresh(result.peripherals)
    ensures result.count == Kept(|found|) && PublishedIn(result.peripherals[..], found)
    ensures result.count == (if |found| < 8 then |found| else 8) && result.peripherals.Length == 8
    ensures forall j :: 0 <= j < result.count ==> ShownAs(result.peripherals[j], found[j])
    ensures forall j :: result.count <= j < 8 ==> Unused(result.peripherals[j])
    ensures heap.live == old(heap.live) - Owned(BuffersOf(Names(found[result.count..])))
    ensures AllReleasable(heap.live, NameBuffers(result.peripherals[..]))
  {
    var slots := new PeripheralVersion[PERIPHERAL_SLOTS](_ => NO_PERIPHERAL);
    var kept := if |found| < PERIPHERAL_SLOTS then |found| else PERIPHERAL_SLOTS;
    var count: Byte := 0;
    for i := 0 to kept
      invariant count == i && heap.live == old(heap.live)
      invariant forall j :: 0 <= j < PERIPHERAL_SLOTS ==>
        slots[j] == if j < i then Published(found[j]) else NO_PERIPHERAL
    {
      assert Names(found)[i] == found[i].productName;
      var name := heap.FromVec(found[i].productName);
      slots[i] := PeripheralVersion(1, found[i].major, found[i].minor, found[i].subMinor, found[i].vendorId,
                                    found[i].productId, name);
      count := count + 1;
    }
    DropExcess(heap, found, kept);
    ghost var names := BuffersOf(Names(found[..kept]));
    NamesAreReleasable(old(heap.live), found, kept);
    ReleaseSpares(old(heap.live), names, BuffersOf(Names(found[kept..])));
    SlotNamesAreReleasable(heap.live, names, slots[..]);
    result := new PeripheralVersionsResult(count, slots);
  }

  /** Drops the vectors of the peripherals that no slot took. */
  method DropExcess(heap: Heap, found: seq<FoundPeripheral>, kept: nat)
    requires kept <= |found| && VecsOk(heap.live, Names(found))
    modifies heap
    ensures heap.live == old(heap.live) - Owned(BuffersOf(Names(found[kept..])))
  {
    ghost var excess := BuffersOf(Names(found[kept..]));
    NamesAreReleasable(heap.live, found, kept);
    for i := kept to |found|
      invariant heap.live == old(heap.live) - Owned(excess[..i - kept])
    {
      ghost var b := excess[i - kept];
      ReleaseOneMore(old(heap.live), excess, i - kept);
      OwnedByOne(b);
      heap.DropVec(found[i].productName);
    }
    assert excess[..|found| - kept] == excess;
  }

  lemma OwnedByOne(b: ByteBuffer)
    ensures Owned([b]) == if OwnsBlock(b) then {b.ptr} else {}
  {
    assert [b][0] == b;
  }

  lemma NamesAreReleasable(live: Blocks, found: seq<FoundPeripheral>, kept: nat)
    requires kept <= |found| && VecsOk(live, Names(found))
    ensures AllReleasable(live, BuffersOf(Names(found[..kept])) + BuffersOf(Names(found[kept..])))
    ensures AllReleasable(live, BuffersOf(Names(found[kept..])))
  {
    var all := BuffersOf(Names(found[..kept])) + BuffersOf(Names(found[kept..]));
    var names := Names(found);
    assert |all| == |names|;
    forall i | 0 <= i < |all| ensures all[i] == BufferOf(names[i]) {}
    TailIsReleasable(live, BuffersOf(Names(found[..kept])), BuffersOf(Names(found[kept..])));
  }

  lemma TailIsReleasable(live: Blocks, a: seq<ByteBuffer>, b: seq<ByteBuffer>)
    requires AllReleasable(live, a + b)
    ensures AllReleasable(live, b)
  {
    forall j | 0 <= j < |b| ensures (a + b)[|a| + j] == b[j] {}
  }

  lemma SlotNamesAreReleasable(live: Blocks, bs: seq<ByteBuffer>, slots: seq<PeripheralVersion>)
    requires AllReleasable(live, bs) && |bs| <= |slots|
    requires forall j :: 0 <= j < |slots| ==> slots[j].productName == if j < |bs| then bs[j] else NULL_BUFFER
    ensures AllReleasable(live, NameBuffers(slots))
  {}

  /** The product names are gone and nothing else. */
  predicate Emptied(before: seq<PeripheralVersion>, after: seq<PeripheralVersion>) {
    && |after| == |before|
    && forall j :: 0 <= j < |after| ==> after[j] == before[j].(productName := NULL_BUFFER)
  }

  /** Frees the eight product names, leaving null buffers; every other field stays as it was. */
  method PeripheralVersionsFree(heap: Heap, result: PeripheralVersionsResult?)
    requires result != null ==> AllReleasable(heap.live, NameBuffers(result.peripherals[..]))
    modifies heap, if result != null then {result.peripherals} else {}
    ensures result == null ==> heap.live == old(heap.live)
    ensures result != null ==>
            (heap.live, NameBuffers(result.peripherals[..])) ==
            Freed(old(heap.live), old(NameBuffers(result.peripherals[..])))
    ensures result != null ==> Emptied(old(result.peripherals[..]), result.peripherals[..])
  {
    if result == null { return; }
    ghost var all := NameBuffers(result.peripherals[..]);
    for i := 0 to result.peripherals.Length
      invariant forall j :: 0 <= j < result.peripherals.Length ==>
        result.peripherals[j] == if j < i then old(result.peripherals[j]).(productName := NULL_BUFFER)
                                 else old(result.peripherals[j])
      invariant heap.live == old(heap.live) - Owned(all[..i])
    {
      var owned := result.peripherals[i].productName;
      result.peripherals[i] := result.peripherals[i].(productName := NULL_BUFFER);
      assert owned == all[i];
      ReleaseOneMore(old(heap.live), all, i);
      heap.Destroy(owned);
    }
    assert all[..|all|] == all && NameBuffers(result.peripherals[..]) == Nulls(|all|);
  }

  // ----- frees are idempotent -----

  function FreedTimes(n: nat, live: Blocks, bs: seq<ByteBuffer>): (Blocks, seq<ByteBuffer>) {
    if n == 0 then (live, bs) else var (l, b) := FreedTimes(n - 1, live, bs); Freed(l, b)
  }

  lemma NullsOwnNothing(n: nat)
    ensures Owned(Nulls(n)) == {}
    ensures forall i :: 0 <= i < n ==> Nulls(n)[i] == ByteBuffer(0, 0, 0)
  {}

  /** Freeing a record any positive number of times is freeing it once, and every repetition is as safe as the
      first. */
  lemma {:induction false} FreeIsIdempotent(n: nat, live: Blocks, bs: seq<ByteBuffer>)
    requires AllReleasable(live, bs) && n > 0
    ensures FreedTimes(n, live, bs) == Freed(live, bs)
    ensures AllReleasable(FreedTimes(n, live, bs).0, FreedTimes(n, live, bs).1)
  {
    assert FreedTimes(0, live, bs) == (live, bs);
    if n > 1 {
      FreeIsIdempotent(n - 1, live, bs);
      NullsOwnNothing(|bs|);
      var once := Freed(live, bs);
      assert once.0 - {} == once.0;
      assert Freed(once.0, once.1) == once;
    }
  }

  lemma StillReleasable(n: nat, live: Blocks, bs: seq<ByteBuffer>)
    requires AllReleasable(live, bs)
    ensures AllReleasable(FreedTimes(n, live, bs).0, FreedTimes(n, live, bs).1)
  {
    if n > 0 { FreeIsIdempotent(n, live, bs); }
  }

  /** A caller that frees one battery record `n` times leaves what a single free leaves. */
  method FreeBatteryRepeatedly(heap: Heap, record: SmartBatteryData?, n: nat)
    requires n > 0 && (record != null ==> AllReleasable(heap.live, record.buffers[..]))
    modifies heap, if record != null then {record.buffers} else {}
    ensures record == null ==> heap.live == old(heap.live)
    ensures record != null ==> (heap.live, record.buffers[..]) == Freed(old(heap.live), old(record.buffers[..]))
  {
    ghost var live, bs := heap.live, if record == null then [] else record.buffers[..];
    for i := 0 to n
      invariant record == null ==> heap.live == live
      invariant record != null ==> (heap.live, record.buffers[..]) == FreedTimes(i, live, bs)
    {
      if record != null { StillReleasable(i, live, bs); }
      SmartBatteryDataFree(heap, record);
    }
    if record != null { FreeIsIdempotent(n, live, bs); }
  }

  /** So does one that frees a peripheral list `n` times. */
  method FreePeripheralsRepeatedly(heap: Heap, result: PeripheralVersionsResult?, n: nat)
    requires n > 0 && (result != null ==> AllReleasable(heap.live, NameBuffers(result.peripherals[..])))
    modifies heap, if result != null then {result.peripherals} else {}
    ensures result == null ==> heap.live == old(heap.live)
    ensures result != null ==>
            (heap.live, NameBuffers(result.peripherals[..])) ==
            Freed(old(heap.live), old(NameBuffers(result.peripherals[..])))
    ensures result != null ==> Emptied(old(result.peripherals[..]), result.peripherals[..])
  {
    ghost var live, ps := heap.live, if result == null then [] else result.peripherals[..];
    for i := 0 to n
      invariant result == null ==> heap.live == live
      invariant result != null ==>
        (heap.live, NameBuffers(result.peripherals[..])) == FreedTimes(i, live, NameBuffers(ps))
      invariant result != null ==> if i == 0 then result.peripherals[..] == ps else Emptied(ps, result.peripherals[..])
    {
      if result != null { StillReleasable(i, live, NameBuffers(ps)); }
      PeripheralVersionsFree(heap, result);
    }
    if result != null { FreeIsIdempotent(n, live, NameBuffers(ps)); }
  }

  // ----- builders and frees are inverse -----

  lemma NewVecsAreOk(before: Blocks, added: Blocks, vs: seq<Vec>)
    requires NewlyAllocated(before, added, vs)
    ensures VecsOk(before + added, vs)
  {
    forall i | 0 <= i < |vs| ensures VecOk(before + added, vs[i]) { assert VecOk(added, vs[i]); }
  }

  /** Freeing buffers made from newly allocated vectors takes the new blocks away, and no other. */
  lemma FreeRestores(before: Blocks, added: Blocks, vs: seq<Vec>)
    requires NewlyAllocated(before, added, vs)
    ensures Freed(before + added, BuffersOf(vs)).0 == before
  {}

  /** Builds a battery record from ten new vectors and frees it `n` times: the heap is what it was before the
      vectors were allocated. */
  method BatteryRoundTrip(heap: Heap, data: seq<Vec>, n: nat, ghost before: Blocks, ghost added: Blocks)
    requires |data| == BATTERY_BUFFERS && n > 0
    requires NewlyAllocated(before, added, data) && heap.live == before + added
    modifies heap
    ensures heap.live == before
  {
    NewVecsAreOk(before, added, data);
    var record := IntoFfi(heap, data);
    FreeBatteryRepeatedly(heap, record, n);
    FreeRestores(before, added, data);
  }

  lemma NamesInTwo(found: seq<FoundPeripheral>, kept: nat)
    requires kept <= |found|
    ensures BuffersOf(Names(found)) == BuffersOf(Names(found[..kept])) + BuffersOf(Names(found[kept..]))
  {}

  /** The eight slots own the blocks of the names they took: the unused ones own nothing. */
  lemma SlotsOwnTheKeptNames(slots: seq<PeripheralVersion>, found: seq<FoundPeripheral>)
    requires PublishedIn(slots, found)
    ensures NameBuffers(slots) == BuffersOf(Names(found[..Kept(|found|)])) + Nulls(PERIPHERAL_SLOTS - Kept(|found|))
    ensures Owned(NameBuffers(slots)) == Owned(BuffersOf(Names(found[..Kept(|found|)])))
  {
    var names, nulls := BuffersOf(Names(found[..Kept(|found|)])), Nulls(PERIPHERAL_SLOTS - Kept(|found|));
    assert NameBuffers(slots) == names + nulls;
    OwnedAppend(names, nulls);
    NullsOwnNothing(PERIPHERAL_SLOTS - Kept(|found|));
  }

  /** The excess names that the builder drops and the names in the slots are together all the new blocks. */
  lemma PeripheralsAreRestored(before: Blocks, added: Blocks, found: seq<FoundPeripheral>,
                               slots: seq<PeripheralVersion>)
    requires NewlyAllocated(before, added, Names(found)) && PublishedIn(slots, found)
    ensures var built := before + added - Owned(BuffersOf(Names(found[Kept(|found|)..])));
            Freed(built, NameBuffers(slots)).0 == before
  {
    var kept := Kept(|found|);
    NamesInTwo(found, kept);
    OwnedAppend(BuffersOf(Names(found[..kept])), BuffersOf(Names(found[kept..])));
    SlotsOwnTheKeptNames(slots, found);
  }

  /** Publishes any number of peripherals and frees the list `n` times: the heap is what it was before their names
      were allocated. */
  method PeripheralsRoundTrip(heap: Heap, found: seq<FoundPeripheral>, n: nat,
                              ghost before: Blocks, ghost added: Blocks)
    requires n > 0 && NewlyAllocated(before, added, Names(found)) && heap.live == before + added
    modifies heap
    ensures heap.live == before
  {
    NewVecsAreOk(before, added, Names(found));
    var result := BuildPeripheralVersions(heap, found);
    ghost var slots := result.peripherals[..];
    FreePeripheralsRepeatedly(heap, result, n);
    PeripheralsAreRestored(before, added, found, slots);
  }
}
