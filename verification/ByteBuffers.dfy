/** Buffers that cross the C boundary (src/byte_buffer.rs). A FrameworkByteBuffer can be copied freely and has no
    destructor, so who owns a block is a discipline over the heap; this module makes the heap explicit. */
module ByteBuffers {
  import opened Abi

  /** Address 0 is the null pointer. */
  type Address = nat

  /** A live heap block: its size and the bytes written into it. */
  datatype Block = Block(bytes: seq<Byte>, capacity: nat)

  type Blocks = map<Address, Block>

  datatype RawVec = RawVec(ptr: Address, length: nat, capacity: nat)

  /** A Rust Vec<u8> small enough for `from_vec`, which refuses lengths and capacities over i32::MAX. Its pointer
      is never null; with capacity 0 it points at no block. */
  type Vec = v: RawVec | v.ptr != 0 && v.length <= v.capacity <= I32_MAX witness RawVec(1, 0, 0)

  datatype ByteBuffer = ByteBuffer(ptr: Address, length: I32, capacity: I32)

  const NULL_BUFFER: ByteBuffer := ByteBuffer(0, 0, 0)

  predicate VecOk(live: Blocks, v: Vec) {
    v.capacity > 0 ==> v.ptr in live && live[v.ptr].capacity == v.capacity && |live[v.ptr].bytes| == v.length
  }

  /** A Vec owns its block alone. */
  predicate VecsOk(live: Blocks, vs: seq<Vec>) {
    && (forall i :: 0 <= i < |vs| ==> VecOk(live, vs[i]))
    && (forall i, j :: 0 <= i < j < |vs| && vs[i].capacity > 0 && vs[j].capacity > 0 ==> vs[i].ptr != vs[j].ptr)
  }

  predicate OwnsBlock(b: ByteBuffer) { b.ptr != 0 && b.capacity > 0 }

  /** The safety contract of destroy: the null buffer, an empty vector's buffer, or a live block of the very size
      the buffer names. */
  predicate Releasable(live: Blocks, b: ByteBuffer) {
    b.ptr != 0 ==>
      && 0 <= b.length <= b.capacity
      && (b.capacity > 0 ==> b.ptr in live && live[b.ptr].capacity == b.capacity && |live[b.ptr].bytes| == b.length)
  }

  predicate AllReleasable(live: Blocks, bs: seq<ByteBuffer>) {
    && (forall i :: 0 <= i < |bs| ==> Releasable(live, bs[i]))
    && (forall i, j :: 0 <= i < j < |bs| && OwnsBlock(bs[i]) && OwnsBlock(bs[j]) ==> bs[i].ptr != bs[j].ptr)
  }

  function BufferOf(v: Vec): ByteBuffer { ByteBuffer(v.ptr, v.length, v.capacity) }

  function BuffersOf(vs: seq<Vec>): seq<ByteBuffer> {
    seq(|vs|, i requires 0 <= i < |vs| => BufferOf(vs[i]))
  }

  /** The addresses of the blocks a list of buffers owns. */
  function Owned(bs: seq<ByteBuffer>): set<Address> {
    set i | 0 <= i < |bs| && OwnsBlock(bs[i]) :: bs[i].ptr
  }

  /** Vectors freshly allocated by a call: their blocks, and no others, are new. */
  predicate NewlyAllocated(live: Blocks, blocks: Blocks, vecs: seq<Vec>) {
    blocks.Keys !! live.Keys && VecsOk(blocks, vecs) && blocks.Keys == Owned(BuffersOf(vecs))
  }

  class Heap {
    var live: Blocks

    constructor ()
      ensures live == map[]
    {
      live := map[];
    }

    /** Hands a vector's block over to a buffer: the heap does not change. */
    method FromVec(bytes: Vec) returns (b: ByteBuffer)
      requires VecOk(live, bytes)
      ensures b == BufferOf(bytes) && Releasable(live, b)
      ensures OwnsBlock(b) <==> bytes.capacity > 0
    {
      var length: I32 := bytes.length;
      var capacity: I32 := bytes.capacity;
      b := ByteBuffer(bytes.ptr, length, capacity);
    }

    /** Dropping a vector frees the block of its capacity, if it has one. */
    method DropVec(v: Vec)
      requires VecOk(live, v)
      modifies this
      ensures live == if v.capacity > 0 then old(live) - {v.ptr} else old(live)
    {
      if v.capacity > 0 { live := live - {v.ptr}; }
    }

    method Destroy(b: ByteBuffer)
      requires Releasable(live, b)
      modifies this
      ensures live == old(live) - Owned([b])
    {
      if b.ptr == 0 { return; }
      var length: nat := b.length;
      var capacity: nat := b.capacity;
      assert Owned([b]) == if capacity > 0 then {b.ptr} else {} by {
        assert OwnsBlock([b][0]) <==> capacity > 0;
      }
      DropVec(RawVec(b.ptr, length, capacity));
    }
  }

  /** `destroy` rebuilds the vector it was made from: same pointer, length and capacity. */
  lemma DestroyRebuildsTheVec(live: Blocks, v: Vec)
    requires VecOk(live, v)
    ensures var b := BufferOf(v); b.ptr != 0 && b.length >= 0 && b.capacity >= 0 && RawVec(b.ptr, b.length, b.capacity) == v
    ensures Releasable(live, BufferOf(v))
  {}

  lemma OwnedAppend(a: seq<ByteBuffer>, b: seq<ByteBuffer>)
    ensures Owned(a + b) == Owned(a) + Owned(b)
  {
    forall p | p in Owned(a) + Owned(b) ensures p in Owned(a + b) {
      if p in Owned(a) {
        var i :| 0 <= i < |a| && OwnsBlock(a[i]) && a[i].ptr == p;
        assert (a + b)[i] == a[i];
      } else {
        var i :| 0 <= i < |b| && OwnsBlock(b[i]) && b[i].ptr == p;
        assert (a + b)[|a| + i] == b[i];
      }
    }
  }

  lemma OwnedApart(live: Blocks, a: seq<ByteBuffer>, b: seq<ByteBuffer>)
    requires AllReleasable(live, a + b)
    ensures Owned(a) !! Owned(b)
  {
    forall i, j | 0 <= i < |a| && 0 <= j < |b| && OwnsBlock(a[i]) && OwnsBlock(b[j]) ensures a[i].ptr != b[j].ptr {
      assert (a + b)[i] == a[i] && (a + b)[|a| + j] == b[j];
    }
  }

  /** Releasing some buffers leaves the others releasable. */
  lemma ReleaseSpares(live: Blocks, a: seq<ByteBuffer>, b: seq<ByteBuffer>)
    requires AllReleasable(live, a + b)
    ensures AllReleasable(live - Owned(a), b) && AllReleasable(live - Owned(b), a)
  {
    OwnedApart(live, a, b);
    forall i | 0 <= i < |a| ensures Releasable(live - Owned(b), a[i]) {
      assert (a + b)[i] == a[i] && (OwnsBlock(a[i]) ==> a[i].ptr in Owned(a));
    }
    forall j | 0 <= j < |b| ensures Releasable(live - Owned(a), b[j]) {
      assert (a + b)[|a| + j] == b[j] && (OwnsBlock(b[j]) ==> b[j].ptr in Owned(b));
    }
    forall i, j | 0 <= i < j < |a| && OwnsBlock(a[i]) && OwnsBlock(a[j]) ensures a[i].ptr != a[j].ptr {
      assert (a + b)[i] == a[i] && (a + b)[j] == a[j];
    }
    forall i, j | 0 <= i < j < |b| && OwnsBlock(b[i]) && OwnsBlock(b[j]) ensures b[i].ptr != b[j].ptr {
      assert (a + b)[|a| + i] == b[i] && (a + b)[|a| + j] == b[j];
    }
  }

  /** Releasing a list one by one: after the first `k` the next one is releasable, and leads to `k + 1`. */
  lemma ReleaseOneMore(live: Blocks, bs: seq<ByteBuffer>, k: nat)
    requires AllReleasable(live, bs) && k < |bs|
    ensures Releasable(live - Owned(bs[..k]), bs[k])
    ensures live - Owned(bs[..k]) - Owned([bs[k]]) == live - Owned(bs[..k + 1])
  {
    assert bs == bs[..k] + bs[k..] && bs[k..][0] == bs[k];
    ReleaseSpares(live, bs[..k], bs[k..]);
    assert bs[..k + 1] == bs[..k] + [bs[k]];
    OwnedAppend(bs[..k], [bs[k]]);
  }

  /** A block's buffer cannot be released a second time. */
  lemma SecondReleaseIsUnsound(live: Blocks, b: ByteBuffer)
    requires Releasable(live, b)
    ensures Releasable(live - Owned([b]), b) <==> !OwnsBlock(b)
  {
    assert [b][0] == b;
  }
}
