/** Little-endian words in byte strings. */
module LittleEndian {
  import opened Abi

  function U32At(data: seq<Byte>, offset: nat): U32
    requires offset + 4 <= |data|
  {
    data[offset] as int + 0x100 * (data[offset + 1] as int + 0x100 * (data[offset + 2] as int + 0x100 * data[offset + 3] as int))
  }

  function Le32(x: U32): (b: seq<Byte>)
    ensures |b| == 4
    ensures x == b[0] as int + 0x100 * b[1] as int + 0x1_0000 * b[2] as int + 0x100_0000 * b[3] as int
  {
    var y: U32 := x / 0x100;
    var z: U32 := y / 0x100;
    [x % 0x100, y % 0x100, z % 0x100, z / 0x100]
  }

  function Le16(x: Word): (b: seq<Byte>)
    ensures |b| == 2 && x == b[0] as int + 0x100 * b[1] as int
  {
    [x % 0x100, x / 0x100]
  }

  lemma U32AtWritesBack(data: seq<Byte>, offset: nat)
    requires offset + 4 <= |data|
    ensures Le32(U32At(data, offset)) == data[offset..offset + 4]
  {
    var x := U32At(data, offset);
    var y: int := data[offset + 1] as int + 0x100 * (data[offset + 2] as int + 0x100 * data[offset + 3] as int);
    var z: int := data[offset + 2] as int + 0x100 * data[offset + 3] as int;
    assert x / 0x100 == y && x % 0x100 == data[offset];
    assert y / 0x100 == z && y % 0x100 == data[offset + 1];
    assert z / 0x100 == data[offset + 3] && z % 0x100 == data[offset + 2];
  }

  /** A sequence of 16-bit words as bytes, and back. */
  function EncodeWords(ws: seq<Word>): (b: seq<Byte>)
    ensures |b| == 2 * |ws|
  {
    if ws == [] then [] else EncodeWords(ws[..|ws| - 1]) + Le16(ws[|ws| - 1])
  }

  function DecodeWords(b: seq<Byte>): seq<Word>
    requires |b| % 2 == 0
  {
    if b == [] then [] else DecodeWords(b[..|b| - 2]) + [b[|b| - 2] as int + 0x100 * b[|b| - 1] as int]
  }

  lemma {:induction false} WordsRoundTrip(ws: seq<Word>)
    ensures DecodeWords(EncodeWords(ws)) == ws
  {
    if ws != [] {
      var b := EncodeWords(ws);
      WordsRoundTrip(ws[..|ws| - 1]);
      assert b[..|b| - 2] == EncodeWords(ws[..|ws| - 1]);
    }
  }

  /** The words lie in their order, the low byte of each first. */
  lemma {:induction false} EncodedAt(ws: seq<Word>, i: nat)
    requires i < |ws|
    ensures EncodeWords(ws)[2 * i..2 * i + 2] == Le16(ws[i])
  {
    var before := EncodeWords(ws[..|ws| - 1]);
    if i < |ws| - 1 {
      EncodedAt(ws[..|ws| - 1], i);
      assert EncodeWords(ws)[2 * i..2 * i + 2] == before[2 * i..2 * i + 2];
    } else {
      assert EncodeWords(ws) == before + Le16(ws[i]);
    }
  }

  lemma {:induction false} EncodeAppend(a: seq<Word>, b: seq<Word>)
    ensures EncodeWords(a + b) == EncodeWords(a) + EncodeWords(b)
  {
    if b == [] {
      assert a + b == a;
    } else {
      assert (a + b)[..|a + b| - 1] == a + b[..|b| - 1];
      EncodeAppend(a, b[..|b| - 1]);
    }
  }
}

/** The EC's saved panic record and its port 80 history (src/diagnostics.rs). The magic number and the largest
    port 80 chunk belong to another crate and are parameters. */
module Diagnostics {
  import opened Abi
  import opened LittleEndian
  import opened Status
  import opened Text

  // ----- panic record -----

  const PANIC_HEADER_SIZE: nat := 4
  const PANIC_TRAILER_SIZE: nat := 8

  datatype PanicInfo = PanicInfo(
    data: seq<Byte>, arch: Byte, structVersion: Byte, flags: Byte, structSize: U32, magic: U32, isValid: bool)

  function GetPanicInfo(data: seq<Byte>, panicMagic: U32): PanicInfo {
    if |data| < PANIC_HEADER_SIZE + PANIC_TRAILER_SIZE then PanicInfo(data, 0, 0, 0, 0, 0, false)
    else
      var structSize := U32At(data, |data| - 8);
      var magic := U32At(data, |data| - 4);
      PanicInfo(data, data[0], data[1], data[2], structSize, magic, magic == panicMagic && structSize == |data|)
  }

  /** What the EC saves: a header, the processor state, and a trailer with the total size and the magic number. */
  datatype PanicRecord = PanicRecord(arch: Byte, structVersion: Byte, flags: Byte, reserved: Byte, state: seq<Byte>)

  predicate Savable(r: PanicRecord) { |r.state| + 12 < 0x1_0000_0000 }

  function Saved(r: PanicRecord, panicMagic: U32): seq<Byte>
    requires Savable(r)
  {
    [r.arch, r.structVersion, r.flags, r.reserved] + r.state + Le32(|r.state| + 12) + Le32(panicMagic)
  }

  /** Whatever the EC saved is read back as valid, with its header. */
  lemma SavedRecordsAreValid(r: PanicRecord, panicMagic: U32)
    requires Savable(r)
    ensures GetPanicInfo(Saved(r, panicMagic), panicMagic)
         == PanicInfo(Saved(r, panicMagic), r.arch, r.structVersion, r.flags, |r.state| + 12, panicMagic, true)
  {}

  /** A blob reads as valid exactly when it is one that the EC saves. */
  lemma ValidExactlyWhenSaved(data: seq<Byte>, panicMagic: U32)
    ensures GetPanicInfo(data, panicMagic).isValid
       <==> exists r :: Savable(r) && data == Saved(r, panicMagic)
  {
    if GetPanicInfo(data, panicMagic).isValid {
      var n := |data|;
      var r := PanicRecord(data[0], data[1], data[2], data[3], data[4..n - 8]);
      U32AtWritesBack(data, n - 8);
      U32AtWritesBack(data, n - 4);
      assert data == data[..4] + data[4..n - 8] + data[n - 8..n - 4] + data[n - 4..];
      assert data == Saved(r, panicMagic);
    } else if r :| Savable(r) && data == Saved(r, panicMagic) {
      SavedRecordsAreValid(r, panicMagic);
    }
  }

  /** What is read off any blob, valid or not: the blob itself and, if it can hold header and trailer, its first
      three bytes and its last two little-endian words. Shorter blobs yield zeros and are never valid. */
  lemma PanicFieldsAreTheBlobs(data: seq<Byte>, panicMagic: U32)
    ensures var info, n := GetPanicInfo(data, panicMagic), |data|;
            && info.data == data
            && (n < 12 ==> info == PanicInfo(data, 0, 0, 0, 0, 0, false))
            && (n >= 12 ==>
                  && info.arch == data[0] && info.structVersion == data[1] && info.flags == data[2]
                  && Le32(info.structSize) == data[n - 8..n - 4] && Le32(info.magic) == data[n - 4..]
                  && (info.isValid <==> info.structSize == n && info.magic == panicMagic))
  {
    if |data| >= 12 {
      U32AtWritesBack(data, |data| - 8);
      U32AtWritesBack(data, |data| - 4);
      assert data[|data| - 4..|data|] == data[|data| - 4..];
    }
  }

  // ----- port 80 history -----

  datatype Port80History = Port80History(writes: U32, historySize: U32, codes: seq<Byte>)

  /** A ReadBuffer request: first entry and number of entries. */
  datatype Request = Request(offset: U32, numEntries: U32)

  /** The EC driver's answer to each request; it may be padded, short or an error. */
  type Port80Ec = Request -> Result<seq<Byte>, EcError>

  function ShortResponse(q: Request, got: nat): EcError {
    DeviceFailure("Expected " + Decimal(q.numEntries) + " entries, got " + Decimal(got) + " bytes")
  }

  /** The first of the requests still to be made at `offset`. */
  function NextRequest(offset: U32, size: U32, max: U32): (q: Request)
    requires offset < size && max > 0
    ensures 1 <= q.numEntries <= max && q.offset + q.numEntries <= size
  {
    Request(offset, if max <= size - offset then max else size - offset)
  }

  /** The requests from `offset` to the end of the history. */
  function Tiles(offset: U32, size: U32, max: U32): seq<Request>
    requires offset <= size && max > 0
    decreases size - offset
  {
    if offset == size then []
    else var q := NextRequest(offset, size, max); [q] + Tiles(offset + q.numEntries, size, max)
  }

  /** Consecutive requests that cover `offset`..`size` without gap or overlap, each between 1 and `max` entries. */
  predicate TileRange(ts: seq<Request>, offset: U32, size: U32, max: U32) {
    if ts == [] then offset == size
    else
      && ts[0].offset == offset && 1 <= ts[0].numEntries <= max && offset + ts[0].numEntries <= size
      && TileRange(ts[1..], offset + ts[0].numEntries, size, max)
  }

  lemma {:induction false} TilesTileTheHistory(offset: U32, size: U32, max: U32)
    requires offset <= size && max > 0
    ensures TileRange(Tiles(offset, size, max), offset, size, max)
    ensures var ts := Tiles(offset, size, max); forall i :: 0 <= i < |ts| - 1 ==> ts[i].numEntries == max
    decreases size - offset
  {
    if offset < size {
      var q := NextRequest(offset, size, max);
      TilesTileTheHistory(offset + q.numEntries, size, max);
      assert Tiles(offset, size, max)[1..] == Tiles(offset + q.numEntries, size, max);
    }
  }

  /** What is wrong with the answer to a request, if anything: padding is not. */
  function Fault(ec: Port80Ec, q: Request): Option<EcError> {
    match ec(q)
    case Err(e) => Some(e)
    case Ok(data) => if |data| < 2 * q.numEntries then Some(ShortResponse(q, |data|)) else None
  }

  /** The answer without its padding. */
  function Chunk(ec: Port80Ec, q: Request): Result<seq<Byte>, EcError> {
    match Fault(ec, q)
    case Some(e) => Err(e)
    case None => Ok(ec(q).value[..2 * q.numEntries])
  }

  /** The unpadded answers joined; the first fault otherwise. */
  function Collected(ec: Port80Ec, ts: seq<Request>): Result<seq<Byte>, EcError> {
    if ts == [] then Ok([])
    else if Fault(ec, ts[0]).Some? then Err(Fault(ec, ts[0]).value)
    else
      match Collected(ec, ts[1..])
      case Ok(rest) => Ok(ec(ts[0]).value[..2 * ts[0].numEntries] + rest)
      case Err(e) => Err(e)
  }

  function WithPrefix(codes: seq<Byte>, r: Result<seq<Byte>, EcError>): Result<seq<Byte>, EcError> {
    match r
    case Ok(rest) => Ok(codes + rest)
    case Err(e) => Err(e)
  }

  lemma WithNoPrefix(r: Result<seq<Byte>, EcError>)
    ensures WithPrefix([], r) == r
  {
    if r.Ok? { assert [] + r.value == r.value; }
  }

  /** Making the first of the remaining requests, with `codes` read so far. */
  lemma FirstOfTheRest(ec: Port80Ec, codes: seq<Byte>, ts: seq<Request>)
    requires ts != []
    ensures WithPrefix(codes, Collected(ec, ts)) ==
            if Fault(ec, ts[0]).Some? then Err(Fault(ec, ts[0]).value)
            else WithPrefix(codes + ec(ts[0]).value[..2 * ts[0].numEntries], Collected(ec, ts[1..]))
  {
    var rest := Collected(ec, ts[1..]);
    if Fault(ec, ts[0]).None? && rest.Ok? {
      var data := ec(ts[0]).value[..2 * ts[0].numEntries];
      assert codes + (data + rest.value) == codes + data + rest.value;
    }
  }

  lemma FirstTile(offset: U32, size: U32, max: U32)
    requires offset < size && max > 0
    ensures var q := NextRequest(offset, size, max); var ts := Tiles(offset, size, max);
            ts != [] && ts[0] == q && ts[1..] == Tiles(offset + q.numEntries, size, max)
  {}

  predicate IsFirstPart(a: seq<Request>, b: seq<Request>) { |a| <= |b| && a == b[..|a|] }

  predicate Faultless(ec: Port80Ec, requests: seq<Request>) {
    forall i :: 0 <= i < |requests| ==> Fault(ec, requests[i]).None?
  }

  /** The last request, and no earlier one, is faulty, with this error. */
  predicate StoppedBy(ec: Port80Ec, requests: seq<Request>, error: EcError) {
    && requests != []
    && Fault(ec, requests[|requests| - 1]) == Some(error)
    && forall i :: 0 <= i < |requests| - 1 ==> Fault(ec, requests[i]).None?
  }

  /** The requests made from the start of the history up to `offset`. */
  predicate EndsAt(requests: seq<Request>, offset: U32, size: U32, max: U32)
    requires max > 0
    decreases |requests|
  {
    if requests == [] then offset == 0
    else
      var q := requests[|requests| - 1];
      && q.offset < size && q == NextRequest(q.offset, size, max) && offset == q.offset + q.numEntries
      && EndsAt(requests[..|requests| - 1], q.offset, size, max)
  }

  lemma {:induction false} RestOfTheTiles(requests: seq<Request>, offset: U32, size: U32, max: U32)
    requires offset <= size && max > 0 && EndsAt(requests, offset, size, max)
    ensures Tiles(0, size, max) == requests + Tiles(offset, size, max)
    decreases |requests|
  {
    if requests != [] {
      var before, q := requests[..|requests| - 1], requests[|requests| - 1];
      RestOfTheTiles(before, q.offset, size, max);
      FirstTile(q.offset, size, max);
      assert before + ([q] + Tiles(offset, size, max)) == requests + Tiles(offset, size, max);
    }
  }

  /** Where the loop stands: the requests made, none of them faulty, and those to come are
      all of them, and the outcome is that of the rest behind the codes read so far. */
  predicate Progress(ec: Port80Ec, codes: seq<Byte>, requests: seq<Request>, offset: U32, size: U32, max: U32)
    requires offset <= size && max > 0
  {
    && Faultless(ec, requests)
    && EndsAt(requests, offset, size, max)
    && Collected(ec, Tiles(0, size, max)) == WithPrefix(codes, Collected(ec, Tiles(offset, size, max)))
  }

  lemma ProgressStarts(ec: Port80Ec, size: U32, max: U32)
    requires max > 0
    ensures Progress(ec, [], [], 0, size, max)
  {
    WithNoPrefix(Collected(ec, Tiles(0, size, max)));
  }

  lemma ProgressContinues(ec: Port80Ec, codes: seq<Byte>, requests: seq<Request>, offset: U32, size: U32, max: U32)
    requires offset < size && max > 0 && Progress(ec, codes, requests, offset, size, max)
    ensures var q := NextRequest(offset, size, max);
            && IsFirstPart(requests + [q], Tiles(0, size, max))
            && (match Chunk(ec, q)
                case Err(e) => Collected(ec, Tiles(0, size, max)) == Err(e) && StoppedBy(ec, requests + [q], e)
                case Ok(data) => Progress(ec, codes + data, requests + [q], offset + q.numEntries, size, max))
  {
    var ts := Tiles(offset, size, max);
    FirstTile(offset, size, max);
    FirstOfTheRest(ec, codes, ts);
    RestOfTheTiles(requests, offset, size, max);
    assert requests + ts == requests + [ts[0]] + ts[1..];
  }

  lemma ProgressEnds(ec: Port80Ec, codes: seq<Byte>, requests: seq<Request>, size: U32, max: U32)
    requires max > 0 && Progress(ec, codes, requests, size, size, max)
    ensures Collected(ec, Tiles(0, size, max)) == Ok(codes) && requests == Tiles(0, size, max)
    ensures IsFirstPart(requests, Tiles(0, size, max)) && Faultless(ec, requests)
  {
    RestOfTheTiles(requests, size, size, max);
    assert codes + [] == codes && requests + [] == requests;
  }

  /** One request: an error or a short answer is a fault, and of a longer answer the padding is cut off. */
  method ReadChunk(ec: Port80Ec, request: Request) returns (r: Result<seq<Byte>, EcError>)
    ensures r == Chunk(ec, request)
    ensures match ec(request)
            case Err(e) => r == Err(e)
            case Ok(data) =>
              if |data| >= 2 * request.numEntries then r == Ok(data[..2 * request.numEntries])
              else r == Err(DeviceFailure("Expected " + Decimal(request.numEntries) + " entries, got " +
                                          Decimal(|data|) + " bytes"))
  {
    var answer := ec(request);
    if answer.Err? { return Err(answer.error); }
    var expected := 2 * request.numEntries;
    if |answer.value| < expected { return Err(ShortResponse(request, |answer.value|)); }
    return Ok(answer.value[..expected]);
  }

  /** Reads the history chunk by chunk, keeping of each answer only the bytes asked for. The request log shows
      that reading stops at the first fault and otherwise covers the whole history. */
  method ReadHistory(ec: Port80Ec, historySize: U32, maxEntries: U32)
    returns (r: Result<seq<Byte>, EcError>, requests: seq<Request>)
    requires maxEntries > 0
    ensures r == Collected(ec, Tiles(0, historySize, maxEntries))
    ensures IsFirstPart(requests, Tiles(0, historySize, maxEntries))
    ensures r.Ok? ==> requests == Tiles(0, historySize, maxEntries) && Faultless(ec, requests)
    ensures r.Err? ==> StoppedBy(ec, requests, r.error)
  {
    requests := [];
    var codes: seq<Byte> := [];
    var offset: U32 := 0;
    ProgressStarts(ec, historySize, maxEntries);
    while offset < historySize
      invariant offset <= historySize && Progress(ec, codes, requests, offset, historySize, maxEntries)
      decreases historySize - offset
    {
      ProgressContinues(ec, codes, requests, offset, historySize, maxEntries);
      var numEntries: U32 := if maxEntries <= historySize - offset then maxEntries else historySize - offset;
      var request := Request(offset, numEntries);
      requests := requests + [request];
      var chunk := ReadChunk(ec, request);
      if chunk.Err? { return Err(chunk.error), requests; }
      codes := codes + chunk.value;
      offset := offset + numEntries;
    }
    ProgressEnds(ec, codes, requests, historySize, maxEntries);
    return Ok(codes), requests;
  }

  method Port80Read(info: Result<(U32, U32), EcError>, ec: Port80Ec, maxEntries: U32)
    returns (r: Result<Port80History, EcError>, requests: seq<Request>)
    requires maxEntries > 0
    ensures info.Err? ==> r == Err(info.error) && requests == []
    ensures info.Ok? ==>
            match Collected(ec, Tiles(0, info.value.1, maxEntries))
            case Ok(codes) => r == Ok(Port80History(info.value.0, info.value.1, codes))
            case Err(e) => r == Err(e)
    ensures info.Ok? ==> IsFirstPart(requests, Tiles(0, info.value.1, maxEntries))
    ensures r.Ok? ==> info.Ok? && requests == Tiles(0, info.value.1, maxEntries) && Faultless(ec, requests)
    ensures info.Ok? && r.Err? ==> StoppedBy(ec, requests, r.error)
  {
    requests := [];
    if info.Err? { return Err(info.error), requests; }
    var writes, historySize := info.value.0, info.value.1;
    var codes;
    codes, requests := ReadHistory(ec, historySize, maxEntries);
    if codes.Err? { return Err(codes.error), requests; }
    return Ok(Port80History(writes, historySize, codes.value)), requests;
  }

  /** The first faulty request decides the error; there is an error exactly when some request is faulty. */
  lemma {:induction false} FirstFaultDecides(ec: Port80Ec, ts: seq<Request>)
    ensures Collected(ec, ts).Ok? <==> forall i :: 0 <= i < |ts| ==> Fault(ec, ts[i]).None?
    ensures Collected(ec, ts).Err? ==> exists k :: 0 <= k < |ts| && Fault(ec, ts[k]) == Some(Collected(ec, ts).error)
                                                   && forall i :: 0 <= i < k ==> Fault(ec, ts[i]).None?
  {
    if ts != [] {
      FirstFaultDecides(ec, ts[1..]);
      if Fault(ec, ts[0]).None? && Collected(ec, ts).Err? {
        var k :| 0 <= k < |ts| - 1 && Fault(ec, ts[1..][k]) == Some(Collected(ec, ts).error)
                 && forall i :: 0 <= i < k ==> Fault(ec, ts[1..][i]).None?;
        assert Fault(ec, ts[k + 1]) == Some(Collected(ec, ts).error);
        forall i | 0 <= i < k + 1 ensures Fault(ec, ts[i]).None? {
          if i > 0 { assert ts[i] == ts[1..][i - 1]; }
        }
      }
    }
  }

  /** An EC holding `words` answers a request with its words, followed by any padding. */
  predicate Holds(ec: Port80Ec, words: seq<Word>, q: Request) {
    && q.offset + q.numEntries <= |words|
    && ec(q).Ok?
    && EncodeWords(words[q.offset..q.offset + q.numEntries]) <= ec(q).value
  }

  lemma HeldAnswersAreClean(ec: Port80Ec, words: seq<Word>, q: Request)
    requires Holds(ec, words, q)
    ensures Chunk(ec, q) == Ok(EncodeWords(words[q.offset..q.offset + q.numEntries]))
  {
    var piece := EncodeWords(words[q.offset..q.offset + q.numEntries]);
    assert |piece| == 2 * q.numEntries;
    assert Fault(ec, q) == None && ec(q).value[..|piece|] == piece;
  }

  predicate HoldsAll(ec: Port80Ec, words: seq<Word>, ts: seq<Request>) {
    ts != [] ==> Holds(ec, words, ts[0]) && HoldsAll(ec, words, ts[1..])
  }

  lemma EncodeInTwo(words: seq<Word>, m: nat, n: nat)
    requires m <= n <= |words|
    ensures EncodeWords(words[m..]) == EncodeWords(words[m..n]) + EncodeWords(words[n..])
  {
    assert words[m..] == words[m..n] + words[n..];
    EncodeAppend(words[m..n], words[n..]);
  }

  lemma FirstPieceAndRest(ec: Port80Ec, words: seq<Word>, ts: seq<Request>)
    requires ts != [] && Holds(ec, words, ts[0])
    requires Collected(ec, ts[1..]) == Ok(EncodeWords(words[ts[0].offset + ts[0].numEntries..]))
    ensures Collected(ec, ts) == Ok(EncodeWords(words[ts[0].offset..]))
  {
    HeldAnswersAreClean(ec, words, ts[0]);
    EncodeInTwo(words, ts[0].offset, ts[0].offset + ts[0].numEntries);
  }

  /** However the history is cut into pieces and however the answers are padded, what is read is the whole history
      as one piece. */
  lemma {:induction false} PiecesMakeTheHistory(ec: Port80Ec, words: seq<Word>, ts: seq<Request>, offset: U32, max: U32)
    requires offset <= |words| < 0x1_0000_0000 && TileRange(ts, offset, |words|, max) && HoldsAll(ec, words, ts)
    ensures Collected(ec, ts) == Ok(EncodeWords(words[offset..]))
    decreases |ts|
  {
    if ts != [] {
      PiecesMakeTheHistory(ec, words, ts[1..], offset + ts[0].numEntries, max);
      FirstPieceAndRest(ec, words, ts);
    }
  }

  /** In particular the chunks the loop requests, whatever the largest chunk. */
  lemma ChunkedReadIsOneShotRead(ec: Port80Ec, words: seq<Word>, offset: U32, size: U32, max: U32)
    requires max > 0 && offset <= size == |words|
    requires HoldsAll(ec, words, Tiles(offset, size, max))
    ensures Collected(ec, Tiles(offset, size, max)) == Ok(EncodeWords(words[offset..]))
  {
    TilesTileTheHistory(offset, size, max);
    PiecesMakeTheHistory(ec, words, Tiles(offset, size, max), offset, max);
  }

  /** The published codes are two bytes per entry and decode to the EC's own words. */
  lemma HistoryDecodes(ec: Port80Ec, words: seq<Word>, size: U32, max: U32)
    requires max > 0 && size == |words| && HoldsAll(ec, words, Tiles(0, size, max))
    ensures var codes := Collected(ec, Tiles(0, size, max));
            && codes.Ok? && |codes.value| == 2 * size && DecodeWords(codes.value) == words
            && forall i :: 0 <= i < |words| ==> codes.value[2 * i..2 * i + 2] == Le16(words[i])
  {
    ChunkedReadIsOneShotRead(ec, words, 0, size, max);
    assert words[0..] == words;
    WordsRoundTrip(words);
    forall i | 0 <= i < |words| { EncodedAt(words, i); }
  }
}
