/** The bounded CAPE version exchange with the audio expansion card (src/versions.rs): for each matching USB device
    claim the HID interface, poll it, release it, and report the first card that replies. */
module AudioCard {
  import opened Abi
  import opened LittleEndian

  const FRAMEWORK_VID: Word := 0x32AC
  const AUDIO_CARD_PID: Word := 0x0010
  const CAPE_MAX_POLLS: nat := 32

  /** A HidCapeMessage as it lies in memory, packed and little-endian: report id, length, command id (bytes 4-5),
      module id, and thirteen 32-bit data words from byte 10 on. */
  const MESSAGE_SIZE: nat := 62

  type Message = s: seq<Byte> | |s| == MESSAGE_SIZE witness seq(MESSAGE_SIZE, _ => 0)

  /** What a control read may put at the front of the response buffer. */
  type Report = s: seq<Byte> | |s| <= MESSAGE_SIZE

  const REQUEST: Message := [1, 0, 13, 0, 0x03, 0x01, 0x00, 0x23, 0x2D, 0xB3] + seq(52, _ => 0)

  /** Outcome of one poll: did the write succeed, and what did the read deliver (None on error). */
  datatype Poll = Poll(wrote: bool, read: Option<Report>)

  /** A device as enumerated: its ids if the descriptor is readable, whether it opens, its HID interface if it has
      one, whether the claim succeeds, the outcome of every conceivable poll, and its product string. */
  datatype Device = Device(
    ids: Option<(Word, Word)>, opens: bool, hidInterface: Option<Byte>, claims: bool, polls: nat -> Poll,
    productName: string)

  datatype Version = Version(vendorId: Word, productId: Word, major: Byte, minor: Byte, subMinor: Byte, productName: string)

  datatype Event = Claim(device: nat) | Write(device: nat) | Read(device: nat) | Release(device: nat)

  predicate Replied(m: Message) { m[4] == 0x03 && m[5] == 0x81 }

  function Overlay(m: Message, report: Report): Message { report + m[|report|..] }

  /** The response buffer after `n` successful polls; it starts out as the request, and a short report leaves the
      older bytes behind it in place. */
  function Response(d: Device, n: nat): Message {
    if n == 0 then REQUEST
    else
      match d.polls(n - 1).read
      case Some(report) => Overlay(Response(d, n - 1), report)
      case None => Response(d, n - 1)
  }

  predicate RepliedAfter(d: Device, n: nat) { Replied(Response(d, n)) }

  predicate Transfers(d: Device, k: nat) { d.polls(k).wrote && d.polls(k).read.Some? }

  /** Poll `k` is the first to leave a reply in the buffer, and no transfer failed up to it. */
  predicate Answers(d: Device, k: nat) {
    && k < CAPE_MAX_POLLS
    && (forall j :: 0 <= j <= k ==> Transfers(d, j))
    && RepliedAfter(d, k + 1)
    && (forall j :: 1 <= j <= k ==> !RepliedAfter(d, j))
  }

  /** No poll of `d` is answered in time. */
  ghost predicate Silent(d: Device) { forall k: nat :: !Answers(d, k) }

  predicate IsAudioCard(d: Device) { d.ids == Some((FRAMEWORK_VID, AUDIO_CARD_PID)) }

  predicate Reachable(d: Device) { IsAudioCard(d) && d.opens && d.hidInterface.Some? && d.claims }

  function VersionIn(d: Device, m: Message): Version {
    Version(FRAMEWORK_VID, AUDIO_CARD_PID, m[10], m[14], m[18], d.productName)
  }

  // ----- the claim discipline -----

  /** A watcher of the bus: devices are taken in order, at most one is claimed at a time, only the claimed one is
      written and read, each write at most 32 times and each read after its write, and every claim is released. */
  datatype Watch = Free(next: nat) | Claimed(device: nat, sent: nat, received: nat) | Violated

  function Observe(w: Watch, e: Event): Watch {
    match (w, e)
    case (Free(next), Claim(d)) => if next <= d then Claimed(d, 0, 0) else Violated
    case (Claimed(d, sent, received), Write(e)) =>
      if d == e && sent == received && sent < CAPE_MAX_POLLS then Claimed(d, sent + 1, received) else Violated
    case (Claimed(d, sent, received), Read(e)) =>
      if d == e && received < sent then Claimed(d, sent, received + 1) else Violated
    case (Claimed(d, sent, received), Release(e)) => if d == e then Free(d + 1) else Violated
    case _ => Violated
  }

  function Watched(trace: seq<Event>): Watch {
    if trace == [] then Free(0) else Observe(Watched(trace[..|trace| - 1]), trace[|trace| - 1])
  }

  lemma WatchedOneMore(trace: seq<Event>, e: Event)
    ensures Watched(trace + [e]) == Observe(Watched(trace), e)
  {}

  /** A violation is never forgiven, so a trace that ends undisturbed was never disturbed. */
  lemma {:induction false} PrefixesAreUndisturbed(trace: seq<Event>, n: nat)
    requires n <= |trace| && !Watched(trace).Violated?
    ensures !Watched(trace[..n]).Violated?
    decreases |trace|
  {
    if n < |trace| {
      PrefixesAreUndisturbed(trace[..|trace| - 1], n);
      assert trace[..|trace| - 1][..n] == trace[..n];
    } else {
      assert trace[..n] == trace;
    }
  }

  function Count(trace: seq<Event>, e: Event): nat {
    if trace == [] then 0 else Count(trace[..|trace| - 1], e) + if trace[|trace| - 1] == e then 1 else 0
  }

  /** What the watcher's verdict means for one device, in numbers. */
  predicate Tallied(trace: seq<Event>, i: nat, w: Watch) {
    var claims, sent, received, releases :=
      Count(trace, Claim(i)), Count(trace, Write(i)), Count(trace, Read(i)), Count(trace, Release(i));
    match w
    case Free(next) =>
      && claims == releases <= 1 && received <= sent <= received + 1 && sent <= CAPE_MAX_POLLS
      && (i >= next ==> claims == sent == received == 0)
    case Claimed(d, ws, rs) =>
      if d == i then claims == 1 && releases == 0 && sent == ws <= CAPE_MAX_POLLS && received == rs && rs <= ws <= rs + 1
      else
        && claims == releases <= 1 && received <= sent <= received + 1 && sent <= CAPE_MAX_POLLS
        && (i > d ==> claims == sent == received == 0)
    case Violated => true
  }

  lemma {:induction false} WatcherTallies(trace: seq<Event>, i: nat)
    ensures Tallied(trace, i, Watched(trace))
  {
    if trace != [] {
      WatcherTallies(trace[..|trace| - 1], i);
    }
  }

  /** In a trace that ends with nothing claimed, every device saw as many claims as releases, at most 32 writes,
      and no more reads than writes. */
  lemma ReleasedTracesAreBalanced(trace: seq<Event>, i: nat)
    requires Watched(trace).Free?
    ensures Count(trace, Claim(i)) == Count(trace, Release(i)) <= 1
    ensures Count(trace, Read(i)) <= Count(trace, Write(i)) <= 32
    ensures Count(trace, Claim(i)) == 0 ==> Count(trace, Write(i)) == 0
  {
    WatcherTallies(trace, i);
    if Count(trace, Claim(i)) == 0 { UnclaimedSeesNoWrites(trace, i); }
  }

  lemma {:induction false} UnclaimedSeesNoWrites(trace: seq<Event>, i: nat)
    requires !Watched(trace).Violated? && Count(trace, Claim(i)) == 0
    ensures Count(trace, Write(i)) == 0
    ensures Watched(trace).Claimed? ==> Watched(trace).device != i
  {
    if trace != [] {
      UnclaimedSeesNoWrites(trace[..|trace| - 1], i);
    }
  }

  // ----- the exchange -----

  ghost predicate SameClaims(before: seq<Event>, after: seq<Event>) {
    && (forall j :: Claim(j) in before ==> Claim(j) in after)
    && (forall j :: Claim(j) in after ==> Claim(j) in before)
  }

  /** One poll: a write and, if it went through, a read into the front of the response buffer. */
  method PollOnce(d: Device, i: nat, n: nat, response: Message, before: seq<Event>)
    returns (ok: bool, newResponse: Message, trace: seq<Event>)
    requires n < CAPE_MAX_POLLS && Watched(before) == Claimed(i, n, n) && response == Response(d, n)
    ensures ok <==> Transfers(d, n)
    ensures before <= trace && Watched(trace) == Claimed(i, n + 1, if d.polls(n).wrote then n + 1 else n)
    ensures ok ==> newResponse == Response(d, n + 1)
    ensures SameClaims(before, trace)
  {
    WatchedOneMore(before, Write(i));
    trace := before + [Write(i)];
    if !d.polls(n).wrote { return false, response, trace; }
    WatchedOneMore(trace, Read(i));
    trace := trace + [Read(i)];
    if d.polls(n).read.None? { return false, response, trace; }
    return true, Overlay(response, d.polls(n).read.value), trace;
  }

  /** Polls a claimed device until it replies, a transfer fails or 32 polls have passed. */
  method Exchange(d: Device, i: nat, before: seq<Event>) returns (answered: bool, response: Message, trace: seq<Event>)
    requires Watched(before) == Claimed(i, 0, 0)
    ensures before <= trace && Watched(trace).Claimed? && Watched(trace).device == i
    ensures !answered ==> Silent(d)
    ensures answered ==> Watched(trace).sent > 0 && Answers(d, Watched(trace).sent - 1)
                         && response == Response(d, Watched(trace).sent)
    ensures !answered ==> Watched(trace).sent == Watched(trace).received == 32
                          || (Watched(trace).sent > 0 && !Transfers(d, Watched(trace).sent - 1))
    ensures SameClaims(before, trace)
  {
    trace := before;
    response := REQUEST;
    answered := false;
    for n := 0 to CAPE_MAX_POLLS
      invariant !answered && before <= trace && Watched(trace) == Claimed(i, n, n)
      invariant response == Response(d, n)
      invariant Unanswered(d, n)
      invariant SameClaims(before, trace)
    {
      var ok;
      ok, response, trace := PollOnce(d, i, n, response, trace);
      if !ok { NoAnswerAfterFailure(d, n); return; }
      NextPollDecides(d, n);
      if Replied(response) {
        answered := true;
        return;
      }
    }
    NoAnswerInTime(d);
  }

  /** The first `n` polls went through and left no reply. */
  predicate Unanswered(d: Device, n: nat) {
    (forall j :: 0 <= j < n ==> Transfers(d, j)) && (forall j :: 1 <= j <= n ==> !RepliedAfter(d, j))
  }

  lemma NextPollDecides(d: Device, n: nat)
    requires n < CAPE_MAX_POLLS && Unanswered(d, n) && Transfers(d, n)
    ensures if Replied(Response(d, n + 1)) then Answers(d, n) else Unanswered(d, n + 1)
  {}

  lemma NoAnswerAfterFailure(d: Device, n: nat)
    requires Unanswered(d, n) && !Transfers(d, n)
    ensures Silent(d)
  {}

  lemma NoAnswerInTime(d: Device)
    requires Unanswered(d, CAPE_MAX_POLLS)
    ensures Silent(d)
  {}

  /** Claims a device, exchanges messages with it and releases it, whatever happened. */
  method Query(d: Device, i: nat, before: seq<Event>) returns (version: Option<Version>, trace: seq<Event>)
    requires Watched(before).Free? && Watched(before).next <= i
    ensures Watched(trace) == Free(i + 1)
    ensures SameClaims(before + [Claim(i)], trace)
    ensures version.None? ==> Silent(d)
    ensures version.Some? ==> exists k: nat :: Answers(d, k) && version == Some(VersionIn(d, Response(d, k + 1)))
  {
    WatchedOneMore(before, Claim(i));
    var answered, response;
    answered, response, trace := Exchange(d, i, before + [Claim(i)]);
    WatchedOneMore(trace, Release(i));
    trace := trace + [Release(i)];
    version := if answered then Some(VersionIn(d, response)) else None;
  }

  method AudioCardVersion(devices: Option<seq<Device>>) returns (r: Option<Version>, trace: seq<Event>)
    ensures Watched(trace).Free?
    ensures devices.None? ==> r.None? && trace == []
    ensures devices.Some? && r.None? ==>
            forall i :: 0 <= i < |devices.value| && Reachable(devices.value[i]) ==> Silent(devices.value[i])
    ensures r.Some? ==> devices.Some? && exists i: nat, k: nat ::
            && i < |devices.value| && Reachable(devices.value[i]) && Answers(devices.value[i], k)
            && r == Some(VersionIn(devices.value[i], Response(devices.value[i], k + 1)))
            && (forall j :: 0 <= j < i && Reachable(devices.value[j]) ==> Silent(devices.value[j]))
            && Watched(trace) == Free(i + 1)
    // The devices claimed are the reachable ones, up to the one that answers.
    ensures devices.Some? ==> forall i :: 0 <= i < |devices.value| ==>
      (Claim(i) in trace <==> Reachable(devices.value[i]) && (r.None? || i < Watched(trace).next))
    ensures devices.Some? ==> forall i :: 0 <= i < |devices.value| && Claim(i) in trace ==>
      var d := devices.value[i];
      d.ids == Some((0x32AC, 0x0010)) && d.opens && d.hidInterface.Some? && d.claims
  {
    trace := [];
    if devices.None? { return None, trace; }
    var ds := devices.value;
    for i := 0 to |ds|
      invariant Watched(trace).Free? && Watched(trace).next <= i
      invariant forall j :: 0 <= j < i && Reachable(ds[j]) ==> Silent(ds[j])
      invariant forall j :: 0 <= j < |ds| ==> (Claim(j) in trace <==> j < i && Reachable(ds[j]))
    {
      var device := ds[i];
      if device.ids.None? { continue; }
      if device.ids.value.0 != FRAMEWORK_VID || device.ids.value.1 != AUDIO_CARD_PID { continue; }
      if !device.opens { continue; }
      if device.hidInterface.None? { continue; }
      if !device.claims { continue; }
      var version;
      version, trace := Query(device, i, trace);
      if version.None? { continue; }
      return version, trace;
    }
    return None, trace;
  }

  /** The answering poll is determined by the device. */
  lemma AnswerIsUnique(d: Device, k: nat, m: nat)
    requires Answers(d, k) && Answers(d, m)
    ensures k == m
  {}

  // ----- what the answering read delivers -----

  predicate AnswersWith(d: Device, k: nat, report: Report) { Answers(d, k) && d.polls(k).read == Some(report) }

  /** The reports that can answer: the low byte of the reply's command id is there, and the high byte is right if
      it is there. */
  predicate CanAnswer(report: Report) {
    |report| >= 5 && report[4] == 0x03 && (|report| >= 6 ==> report[5] == 0x81)
  }

  predicate CarriesReplyId(report: Report) { |report| >= 6 && report[4] == 0x03 && report[5] == 0x81 }

  /** A reply is never made of leftovers only: the answering read itself delivers the low byte of the reply's
      command id. It delivers both bytes exactly when it is longer than five bytes; a report of five leaves the
      high byte to an earlier read. */
  lemma ReplyIsFresh(d: Device, k: nat)
    requires Answers(d, k)
    ensures d.polls(k).read.Some?
    ensures var report := d.polls(k).read.value;
            && CanAnswer(report)
            && (CarriesReplyId(report) <==> |report| >= 6)
            && (|report| == 5 ==> Response(d, k)[5] == 0x81)
  {
    assert Transfers(d, k) && RepliedAfter(d, k + 1);
    assert !RepliedAfter(d, k) by {
      if k == 0 { assert Response(d, 0) == REQUEST; }
    }
  }

  /** Byte by byte, what is published comes from the answering read where that reaches, and from the polls before
      it, or from the request, where it does not. */
  lemma ByteComesFrom(d: Device, k: nat, report: Report, p: nat)
    requires AnswersWith(d, k, report) && p < MESSAGE_SIZE
    ensures Response(d, k + 1)[p] == if p < |report| then report[p] else Response(d, k)[p]
  {}

  /** A card that answers its second poll with `report`, after one that left `leftover`, `leftover + 1` and so on
      from byte 6 on. */
  function TwoPollCard(leftover: Byte, report: Report): Device {
    var first: Report := [0, 0, 0, 0, 0, 0x81] + seq(56, i requires 0 <= i < 56 => (leftover + i) % 0x100);
    Device(Some((FRAMEWORK_VID, AUDIO_CARD_PID)), true, Some(0), true,
           k => Poll(true, Some(if k == 0 then first else report)), "")
  }

  lemma TwoPollCardAnswers(leftover: Byte, report: Report)
    requires CanAnswer(report) && leftover < 100
    ensures AnswersWith(TwoPollCard(leftover, report), 1, report)
    ensures |report| <= 18 ==> Response(TwoPollCard(leftover, report), 2)[18] == leftover + 12
  {
    var d := TwoPollCard(leftover, report);
    assert Response(d, 0) == REQUEST;
    assert Response(d, 1)[4] == 0 && Response(d, 1)[5] == 0x81 && Response(d, 1)[18] == leftover + 12;
    assert Response(d, 2) == Overlay(Response(d, 1), report);
    assert RepliedAfter(d, 2) && !RepliedAfter(d, 1);
  }

  /** Two cards that answer with this report are published with the same version. */
  ghost predicate DecidesTheVersion(report: Report) {
    forall d: Device, k: nat, d': Device, k': nat :: AnswersWith(d, k, report) && AnswersWith(d', k', report) ==>
      var v, v' := VersionIn(d, Response(d, k + 1)), VersionIn(d', Response(d', k' + 1));
      v.major == v'.major && v.minor == v'.minor && v.subMinor == v'.subMinor
  }

  /** What is published off an answering report of 19 bytes or more: its bytes 10, 14 and 18 are the major, minor and
      sub-minor version, and the ids and the name are the device's. */
  lemma VersionOffTheReport(d: Device, k: nat, report: Report)
    requires AnswersWith(d, k, report) && |report| >= 19
    ensures var v := VersionIn(d, Response(d, k + 1));
            && v.major == report[10] && v.minor == report[14] && v.subMinor == report[18]
            && v.vendorId == 0x32AC && v.productId == 0x0010 && v.productName == d.productName
  {
    ByteComesFrom(d, k, report, 10);
    ByteComesFrom(d, k, report, 14);
    ByteComesFrom(d, k, report, 18);
  }

  /** The answering report decides the published version exactly when it is at least 19 bytes long, and then the
      version is its bytes 10, 14 and 18. Shorter ones answer too, with bytes of earlier reports. */
  lemma VersionIsTheReportsIff(report: Report)
    requires CanAnswer(report)
    ensures DecidesTheVersion(report) <==> |report| >= 19
    ensures |report| >= 19 ==> forall d: Device, k: nat :: AnswersWith(d, k, report) ==>
      var v := VersionIn(d, Response(d, k + 1));
      v.major == report[10] && v.minor == report[14] && v.subMinor == report[18]
  {
    if |report| < 19 {
      TwoPollCardAnswers(1, report);
      TwoPollCardAnswers(2, report);
      ShortReportsLeaveTheSubMinor(1, report);
      ShortReportsLeaveTheSubMinor(2, report);
    } else {
      forall d: Device, k: nat | AnswersWith(d, k, report) { VersionOffTheReport(d, k, report); }
    }
  }

  lemma ShortReportsLeaveTheSubMinor(leftover: Byte, report: Report)
    requires CanAnswer(report) && leftover < 100 && |report| < 19
    ensures var card := TwoPollCard(leftover, report); VersionIn(card, Response(card, 2)).subMinor == leftover + 12
  {
    TwoPollCardAnswers(leftover, report);
  }

  /** The five bytes 1, 0, 13, 0, 3 answer behind a report that was no reply; the version published is that of the
      earlier report. */
  lemma StaleVersionIsPublished()
    ensures var card := TwoPollCard(7, [1, 0, 13, 0, 3]);
            && AnswersWith(card, 1, [1, 0, 13, 0, 3])
            && !Replied(Response(card, 1)) && !CarriesReplyId([1, 0, 13, 0, 3])
            && VersionIn(card, Response(card, 2)) == Version(FRAMEWORK_VID, AUDIO_CARD_PID, 11, 15, 19, "")
  {
    var card := TwoPollCard(7, [1, 0, 13, 0, 3]);
    TwoPollCardAnswers(7, [1, 0, 13, 0, 3]);
    assert !RepliedAfter(card, 1);
    assert Response(card, 0) == REQUEST;
    assert Response(card, 1)[10] == 11 && Response(card, 1)[14] == 15;
  }

  // ----- the message layout -----

  /** The request is the packed message of the protocol: report 1, thirteen data words, the version command, the
      module and no data. */
  lemma RequestIsTheMessage()
    ensures REQUEST == Le16(0x0001) + Le16(13) + Le16(0x0103) + Le32(0xB32D_2300) + seq(52, _ => 0)
  {}

  /** A response counts as a reply exactly when its command id word is the version reply's. */
  lemma ReplyIsTheCommandId(m: Message)
    ensures Replied(m) <==> m[4..6] == Le16(0x8103)
  {
    assert Le16(0x8103) == [0x03, 0x81] && m[4..6] == [m[4], m[5]];
  }
}
