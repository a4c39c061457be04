/** Runs of library calls that return buffers and of caller frees: who accounts for every live block
    (src/byte_buffer.rs, framework_byte_buffer_free and the aggregate frees of src/lib.rs). */
module Ledger {
  import opened Abi
  import opened ByteBuffers
  import opened Aggregates

  /** A buffer in the caller's hands and the bytes the library put into it. */
  datatype Held = Held(buffer: ByteBuffer, payload: seq<Byte>)

  /** The heap, the buffers the caller still has to free, and those the library lost track of. */
  datatype Ledger = Ledger(live: Blocks, held: seq<Held>, lost: seq<ByteBuffer>)

  const EMPTY: Ledger := Ledger(map[], [], [])

  datatype Action =
    | Return(blocks: Blocks, vecs: seq<Vec>)      // a call that returns the vectors' buffers
    | ReturnDefaults(n: nat)                      // a call that fails and returns null buffers
    | Free(first: nat, n: nat)                    // one buffer, or the buffers of one record
    | BayProbe(blocks: Blocks, serial: Vec)       // an internal bay query whose serial buffer is dropped unfreed

  function Buffers(hs: seq<Held>): seq<ByteBuffer> {
    seq(|hs|, i requires 0 <= i < |hs| => hs[i].buffer)
  }

  function Payload(blocks: Blocks, v: Vec): seq<Byte> {
    if v.capacity > 0 && v.ptr in blocks then blocks[v.ptr].bytes else []
  }

  function HeldFrom(blocks: Blocks, vecs: seq<Vec>): seq<Held> {
    seq(|vecs|, i requires 0 <= i < |vecs| => Held(BufferOf(vecs[i]), Payload(blocks, vecs[i])))
  }

  predicate Step(l: Ledger, a: Action, l': Ledger) {
    match a
    case Return(blocks, vecs) =>
      && NewlyAllocated(l.live, blocks, vecs)
      && l' == Ledger(l.live + blocks, l.held + HeldFrom(blocks, vecs), l.lost)
    case ReturnDefaults(n) =>
      l' == l.(held := l.held + seq(n, _ => Held(NULL_BUFFER, [])))
    case Free(first, n) =>
      && first + n <= |l.held|
      && l' == Ledger(l.live - Owned(Buffers(l.held[first..first + n])),
                      l.held[..first] + l.held[first + n..], l.lost)
    case BayProbe(blocks, serial) =>
      && NewlyAllocated(l.live, blocks, [serial])
      && l' == Ledger(l.live + blocks, l.held, l.lost + [BufferOf(serial)])
  }

  predicate Run(states: seq<Ledger>, actions: seq<Action>) {
    && |states| == |actions| + 1
    && forall i :: 0 <= i < |actions| ==> Step(states[i], actions[i], states[i + 1])
  }

  /** The caller reads through a held buffer exactly the bytes it was given. */
  predicate Readable(live: Blocks, h: Held) {
    && h.buffer.length == |h.payload|
    && (OwnsBlock(h.buffer) ==> h.buffer.ptr in live && live[h.buffer.ptr].bytes == h.payload)
  }

  /** Every live block belongs to exactly one buffer, held or lost; every such buffer can be released; and the
      bytes behind the held ones are intact. */
  predicate Balanced(l: Ledger) {
    && AllReleasable(l.live, l.lost + Buffers(l.held))
    && l.live.Keys == Owned(l.lost + Buffers(l.held))
    && forall i :: 0 <= i < |l.held| ==> Readable(l.live, l.held[i])
  }

  // ----- releasability under changes of the list and the heap -----

  lemma GrowKeepsReleasable(live: Blocks, blocks: Blocks, bs: seq<ByteBuffer>, vecs: seq<Vec>)
    requires AllReleasable(live, bs) && NewlyAllocated(live, blocks, vecs)
    ensures AllReleasable(live + blocks, bs + BuffersOf(vecs))
  {
    var all := bs + BuffersOf(vecs);
    forall i | 0 <= i < |all| ensures Releasable(live + blocks, all[i]) {
      if i >= |bs| { assert all[i] == BufferOf(vecs[i - |bs|]) && VecOk(blocks, vecs[i - |bs|]); }
    }
    forall i, j | 0 <= i < |bs| <= j < |all| && OwnsBlock(all[i]) && OwnsBlock(all[j]) ensures all[i].ptr != all[j].ptr {
      assert all[i].ptr in live && VecOk(blocks, vecs[j - |bs|]);
    }
  }

  /** The order of the list does not matter. */
  lemma SwapKeepsReleasable(live: Blocks, a: seq<ByteBuffer>, b: seq<ByteBuffer>, c: seq<ByteBuffer>)
    requires AllReleasable(live, a + b + c)
    ensures AllReleasable(live, b + (a + c))
    ensures Owned(b + (a + c)) == Owned(a + b + c)
  {
    var all := b + (a + c);
    forall i | 0 <= i < |all| ensures Releasable(live, all[i]) {
      assert all[i] == (a + b + c)[Unswapped(|a|, |b|, i)];
    }
    forall i, j | 0 <= i < j < |all| && OwnsBlock(all[i]) && OwnsBlock(all[j]) ensures all[i].ptr != all[j].ptr {
      assert all[i] == (a + b + c)[Unswapped(|a|, |b|, i)] && all[j] == (a + b + c)[Unswapped(|a|, |b|, j)];
    }
    OwnedAppend(a + b, c);
    OwnedAppend(a, b);
    OwnedAppend(b, a + c);
    OwnedAppend(a, c);
  }

  function Unswapped(a: nat, b: nat, i: nat): nat {
    if i < b then a + i else if i < a + b then i - b else i
  }

  // ----- each kind of step -----

  lemma ReturnKeepsBalance(l: Ledger, blocks: Blocks, vecs: seq<Vec>, l': Ledger)
    requires Balanced(l) && Step(l, Return(blocks, vecs), l')
    ensures Balanced(l')
  {
    var before := l.lost + Buffers(l.held);
    GrowKeepsReleasable(l.live, blocks, before, vecs);
    assert l'.lost + Buffers(l'.held) == before + BuffersOf(vecs);
    OwnedAppend(before, BuffersOf(vecs));
    forall i | |l.held| <= i < |l'.held| ensures Readable(l'.live, l'.held[i]) {
      assert VecOk(blocks, vecs[i - |l.held|]);
    }
    forall i | 0 <= i < |l.held| ensures Readable(l'.live, l'.held[i]) {
      assert Readable(l.live, l.held[i]);
    }
  }

  lemma ReturnDefaultsKeepsBalance(l: Ledger, n: nat, l': Ledger)
    requires Balanced(l) && Step(l, ReturnDefaults(n), l')
    ensures Balanced(l')
  {
    var nulls := seq(n, _ => NULL_BUFFER);
    var before := l.lost + Buffers(l.held);
    assert l'.lost + Buffers(l'.held) == before + nulls;
    OwnedAppend(before, nulls);
    assert Owned(nulls) == {};
  }

  lemma BayProbeKeepsBalance(l: Ledger, blocks: Blocks, serial: Vec, l': Ledger)
    requires Balanced(l) && Step(l, BayProbe(blocks, serial), l')
    ensures Balanced(l')
  {
    var held, b := Buffers(l.held), [BufferOf(serial)];
    assert BuffersOf([serial]) == b;
    GrowKeepsReleasable(l.live, blocks, l.lost + held, [serial]);
    OwnedAppend(l.lost + held, b);
    SwapKeepsReleasable(l'.live, l.lost, held, b);
    assert held + (l.lost + b) == held + (l.lost + b) + [];
    SwapKeepsReleasable(l'.live, held, l.lost + b, []);
    assert l.lost + b + (held + []) == l'.lost + Buffers(l'.held);
    forall i | 0 <= i < |l.held| ensures Readable(l'.live, l'.held[i]) {
      assert Readable(l.live, l.held[i]);
    }
  }

  lemma FreeKeepsReleasable(live: Blocks, lost: seq<ByteBuffer>, pre: seq<ByteBuffer>, mid: seq<ByteBuffer>, post: seq<ByteBuffer>)
    requires AllReleasable(live, lost + (pre + mid + post))
    requires live.Keys == Owned(lost + (pre + mid + post))
    ensures AllReleasable(live - Owned(mid), lost + (pre + post))
    ensures (live - Owned(mid)).Keys == Owned(lost + (pre + post))
  {
    assert lost + (pre + mid + post) == (lost + pre) + mid + post;
    assert lost + (pre + post) == (lost + pre) + post;
    SwapKeepsReleasable(live, lost + pre, mid, post);
    ReleaseSpares(live, mid, (lost + pre) + post);
    OwnedAppend(mid, (lost + pre) + post);
    OwnedApart(live, mid, (lost + pre) + post);
  }

  lemma FreeKeepsReadable(l: Ledger, first: nat, n: nat, l': Ledger, i: nat)
    requires Balanced(l) && Step(l, Free(first, n), l') && i < |l'.held|
    requires AllReleasable(l'.live, l'.lost + Buffers(l'.held))
    ensures Readable(l'.live, l'.held[i])
  {
    var k := if i < first then i else i + n;
    assert Readable(l.live, l.held[k]) && l'.held[i] == l.held[k];
    assert (l'.lost + Buffers(l'.held))[|l'.lost| + i] == l'.held[i].buffer;
  }

  lemma FreeKeepsBalance(l: Ledger, first: nat, n: nat, l': Ledger)
    requires Balanced(l) && Step(l, Free(first, n), l')
    ensures Balanced(l')
  {
    var pre, mid, post := Buffers(l.held[..first]), Buffers(l.held[first..first + n]), Buffers(l.held[first + n..]);
    assert Buffers(l.held) == pre + mid + post;
    assert Buffers(l'.held) == pre + post;
    FreeKeepsReleasable(l.live, l.lost, pre, mid, post);
    forall i | 0 <= i < |l'.held| ensures Readable(l'.live, l'.held[i]) {
      FreeKeepsReadable(l, first, n, l', i);
    }
  }

  lemma StepKeepsBalance(l: Ledger, a: Action, l': Ledger)
    requires Balanced(l) && Step(l, a, l')
    ensures Balanced(l')
  {
    match a
    case Return(blocks, vecs) => ReturnKeepsBalance(l, blocks, vecs, l');
    case ReturnDefaults(n) => ReturnDefaultsKeepsBalance(l, n, l');
    case Free(first, n) => FreeKeepsBalance(l, first, n, l');
    case BayProbe(blocks, serial) => BayProbeKeepsBalance(l, blocks, serial, l');
  }

  // ----- the library's builders and frees take these steps -----

  lemma HeldAreReleasable(l: Ledger, first: nat, n: nat)
    requires Balanced(l) && first + n <= |l.held|
    ensures AllReleasable(l.live, Buffers(l.held[first..first + n]))
  {
    var all := l.lost + Buffers(l.held);
    var some := Buffers(l.held[first..first + n]);
    forall i | 0 <= i < n ensures some[i] == all[|l.lost| + first + i] {}
  }

  /** Any buffer of a balanced ledger's held list may be passed to framework_byte_buffer_free. */
  method FreeBuffer(heap: Heap, l: Ledger, i: nat) returns (l': Ledger)
    requires Balanced(l) && heap.live == l.live && i < |l.held|
    modifies heap
    ensures Step(l, Free(i, 1), l') && heap.live == l'.live && Balanced(l')
  {
    HeldAreReleasable(l, i, 1);
    var buffer := l.held[i].buffer;
    assert Buffers(l.held[i..i + 1]) == [buffer];
    assert Releasable(l.live, [buffer][0]);
    heap.Destroy(buffer);
    l' := Ledger(l.live - Owned([buffer]), l.held[..i] + l.held[i + 1..], l.lost);
    FreeKeepsBalance(l, i, 1, l');
  }

  /** So may a record whose buffers are held be passed to its aggregate free. */
  method FreeRecord(heap: Heap, record: SmartBatteryData, l: Ledger, first: nat) returns (l': Ledger)
    requires Balanced(l) && heap.live == l.live && first + record.buffers.Length <= |l.held|
    requires record.buffers[..] == Buffers(l.held[first..first + record.buffers.Length])
    modifies heap, record.buffers
    ensures Step(l, Free(first, record.buffers.Length), l') && heap.live == l'.live && Balanced(l')
    ensures record.buffers[..] == Nulls(record.buffers.Length)
  {
    var n := record.buffers.Length;
    HeldAreReleasable(l, first, n);
    ghost var freed := record.buffers[..];
    SmartBatteryDataFree(heap, record);
    l' := Ledger(heap.live, l.held[..first] + l.held[first + n..], l.lost);
    FreeKeepsBalance(l, first, n, l');
  }

  /** And a peripheral list whose names are held; its unused slots own nothing. */
  method FreePeripherals(heap: Heap, result: PeripheralVersionsResult, l: Ledger, first: nat, n: nat)
    returns (l': Ledger)
    requires Balanced(l) && heap.live == l.live && first + n <= |l.held| && n <= PERIPHERAL_SLOTS
    requires NameBuffers(result.peripherals[..]) == Buffers(l.held[first..first + n]) + Nulls(PERIPHERAL_SLOTS - n)
    modifies heap, result.peripherals
    ensures Step(l, Free(first, n), l') && heap.live == l'.live && Balanced(l')
    ensures Emptied(old(result.peripherals[..]), result.peripherals[..])
  {
    ghost var names := Buffers(l.held[first..first + n]);
    HeldAreReleasable(l, first, n);
    NullsMayFollow(l.live, names, PERIPHERAL_SLOTS - n);
    PeripheralVersionsFree(heap, result);
    l' := Ledger(heap.live, l.held[..first] + l.held[first + n..], l.lost);
    FreeKeepsBalance(l, first, n, l');
  }

  lemma NullsMayFollow(live: Blocks, bs: seq<ByteBuffer>, n: nat)
    requires AllReleasable(live, bs)
    ensures AllReleasable(live, bs + Nulls(n)) && Owned(bs + Nulls(n)) == Owned(bs)
  {
    NullsOwnNothing(n);
    OwnedAppend(bs, Nulls(n));
  }

  /** Building a battery record returns its ten buffers. The vectors' blocks are on the heap already. */
  method ReturnRecord(heap: Heap, data: seq<Vec>, blocks: Blocks, l: Ledger)
    returns (record: SmartBatteryData, l': Ledger)
    requires Balanced(l) && |data| == BATTERY_BUFFERS
    requires NewlyAllocated(l.live, blocks, data) && heap.live == l.live + blocks
    ensures Step(l, Return(blocks, data), l') && heap.live == l'.live && Balanced(l')
    ensures fresh(record) && record.buffers[..] == Buffers(l'.held[|l.held|..])
  {
    NewVecsAreOk(l.live, blocks, data);
    record := IntoFfi(heap, data);
    l' := Ledger(l.live + blocks, l.held + HeldFrom(blocks, data), l.lost);
    ReturnKeepsBalance(l, blocks, data, l');
    assert l'.held[|l.held|..] == HeldFrom(blocks, data);
  }

  /** The names that find a slot are newly allocated also when the blocks of the others are gone. */
  lemma KeptNamesAreNew(live: Blocks, blocks: Blocks, found: seq<FoundPeripheral>, kept: nat)
    requires kept <= |found| && NewlyAllocated(live, blocks, Names(found))
    ensures var excess := Owned(BuffersOf(Names(found[kept..])));
            && NewlyAllocated(live, blocks - excess, Names(found[..kept]))
            && live + blocks - excess == live + (blocks - excess)
  {
    var names, rest := Names(found[..kept]), Names(found[kept..]);
    NamesAreReleasable(blocks, found, kept);
    ReleaseSpares(blocks, BuffersOf(names), BuffersOf(rest));
    OwnedApart(blocks, BuffersOf(names), BuffersOf(rest));
    NamesInTwo(found, kept);
    OwnedAppend(BuffersOf(names), BuffersOf(rest));
    VecsBehindBuffers(blocks - Owned(BuffersOf(rest)), names);
  }

  lemma VecsBehindBuffers(live: Blocks, vs: seq<Vec>)
    ensures AllReleasable(live, BuffersOf(vs)) <==> VecsOk(live, vs)
  {
    var bs := BuffersOf(vs);
    forall i | 0 <= i < |vs| ensures VecOk(live, vs[i]) <==> Releasable(live, bs[i]) {}
  }

  /** Publishing peripherals returns the names that found a slot, and no others. */
  method ReturnPeripherals(heap: Heap, found: seq<FoundPeripheral>, blocks: Blocks, l: Ledger)
    returns (result: PeripheralVersionsResult, l': Ledger)
    requires Balanced(l)
    requires NewlyAllocated(l.live, blocks, Names(found)) && heap.live == l.live + blocks
    modifies heap
    ensures fresh(result) && fresh(result.peripherals) && result.count == Kept(|found|)
    ensures var excess := Owned(BuffersOf(Names(found[result.count..])));
            Step(l, Return(blocks - excess, Names(found[..result.count])), l')
    ensures heap.live == l'.live && Balanced(l')
    ensures NameBuffers(result.peripherals[..]) ==
            Buffers(l'.held[|l.held|..]) + Nulls(PERIPHERAL_SLOTS - result.count)
  {
    NewVecsAreOk(l.live, blocks, Names(found));
    result := BuildPeripheralVersions(heap, found);
    var kept := result.count;
    KeptNamesAreNew(l.live, blocks, found, kept);
    SlotsOwnTheKeptNames(result.peripherals[..], found);
    var held := HeldFrom(blocks - Owned(BuffersOf(Names(found[kept..]))), Names(found[..kept]));
    l' := Ledger(heap.live, l.held + held, l.lost);
    ReturnKeepsBalance(l, blocks - Owned(BuffersOf(Names(found[kept..]))), Names(found[..kept]), l');
    assert l'.held[|l.held|..] == held && Buffers(held) == BuffersOf(Names(found[..kept]));
  }

  // ----- runs -----

  /** In every run the live blocks are exactly those of the buffers held or lost, each owned once; every held
      buffer may still be freed, and reading through it gives the bytes returned with it. */
  lemma {:induction false} EveryRunIsBalanced(states: seq<Ledger>, actions: seq<Action>, k: nat)
    requires Run(states, actions) && states[0] == EMPTY && k < |states|
    ensures Balanced(states[k])
  {
    if k > 0 {
      EveryRunIsBalanced(states, actions, k - 1);
      StepKeepsBalance(states[k - 1], actions[k - 1], states[k]);
    }
  }

  function Probes(actions: seq<Action>): seq<ByteBuffer> {
    if actions == [] then []
    else Probes(actions[..|actions| - 1]) +
         var last := actions[|actions| - 1]; if last.BayProbe? then [BufferOf(last.serial)] else []
  }

  lemma {:induction false} LostAreTheProbes(states: seq<Ledger>, actions: seq<Action>, k: nat)
    requires Run(states, actions) && states[0] == EMPTY && k < |states|
    ensures states[k].lost == Probes(actions[..k])
  {
    if k > 0 {
      LostAreTheProbes(states, actions, k - 1);
      assert actions[..k][..k - 1] == actions[..k - 1];
      assert Step(states[k - 1], actions[k - 1], states[k]);
    }
  }

  /** Once the caller has freed everything it was given, what is left is exactly one block per bay query that
      found a serial number; a run without such queries leaves nothing. */
  lemma WhatIsLeft(states: seq<Ledger>, actions: seq<Action>, k: nat)
    requires Run(states, actions) && states[0] == EMPTY && k < |states|
    requires states[k].held == []
    ensures states[k].live.Keys == Owned(Probes(actions[..k]))
    ensures (forall i :: 0 <= i < k ==> !actions[i].BayProbe?) ==> states[k].live == map[]
  {
    EveryRunIsBalanced(states, actions, k);
    LostAreTheProbes(states, actions, k);
    assert states[k].lost + Buffers(states[k].held) == states[k].lost;
    if forall i :: 0 <= i < k ==> !actions[i].BayProbe? {
      NoProbesNothingLost(actions[..k]);
      assert states[k].live.Keys == {};
    }
  }

  lemma {:induction false} NoProbesNothingLost(actions: seq<Action>)
    requires forall i :: 0 <= i < |actions| ==> !actions[i].BayProbe?
    ensures Probes(actions) == []
  {
    if actions != [] {
      NoProbesNothingLost(actions[..|actions| - 1]);
    }
  }
}
