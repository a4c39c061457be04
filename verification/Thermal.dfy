/** Sensor-name normalisation and the memmap thermal snapshot (src/thermal.rs). */
module Thermal {
  import opened Abi
  import opened LittleEndian

  // ----- sensor names -----

  datatype SensorName =
    | UnknownSensor | Generic | F75303Local | F75303Cpu | F75303Ddr | Battery | Peci | F57397VccGt | F75303Skin
    | ChargerIc | Apu | DgpuVr | DgpuVram | DgpuAmb | DgpuTemp | F75303Apu | F75303Amb | Virtual

  predicate IsAsciiAlphanumeric(c: char) { '0' <= c <= '9' || 'A' <= c <= 'Z' || 'a' <= c <= 'z' }

  function ToAsciiLowercase(c: char): char {
    if 'A' <= c <= 'Z' then (c as int + 32) as char else c
  }

  function FilterAlphanumeric(s: string): string {
    if s == [] then [] else Kept(s[0]) + FilterAlphanumeric(s[1..])
  }

  function Kept(c: char): string { if IsAsciiAlphanumeric(c) then [c] else [] }

  function Lowercase(s: string): string {
    seq(|s|, i requires 0 <= i < |s| => ToAsciiLowercase(s[i]))
  }

  function Normalized(name: string): string { Lowercase(FilterAlphanumeric(name)) }

  function NameOf(normalized: string): SensorName {
    if normalized == "f75303local" then F75303Local
    else if normalized == "f75303cpu" then F75303Cpu
    else if normalized == "f75303ddr" then F75303Ddr
    else if normalized == "f75303skin" then F75303Skin
    else if normalized == "f75303apu" then F75303Apu
    else if normalized == "f75303amb" then F75303Amb
    else if normalized == "f57397vccgt" then F57397VccGt
    else if normalized == "battery" then Battery
    else if normalized == "peci" then Peci
    else if normalized == "chargeric" then ChargerIc
    else if normalized == "apu" then Apu
    else if normalized == "dgpuvr" then DgpuVr
    else if normalized == "dgpuvram" then DgpuVram
    else if normalized == "dgpuamb" then DgpuAmb
    else if normalized == "dgputemp" || normalized == "dgpu" then DgpuTemp
    else if normalized == "virtual" then Virtual
    else Generic
  }

  function MapSensorName(name: string): SensorName { NameOf(Normalized(name)) }

  lemma {:induction false} FilterAppend(a: string, b: string)
    ensures FilterAlphanumeric(a + b) == FilterAlphanumeric(a) + FilterAlphanumeric(b)
  {
    if a == [] {
      assert a + b == b;
    } else {
      assert (a + b)[1..] == a[1..] + b && (a + b)[0] == a[0];
      FilterAppend(a[1..], b);
      var k, x, y := Kept(a[0]), FilterAlphanumeric(a[1..]), FilterAlphanumeric(b);
      assert k + (x + y) == k + x + y;
    }
  }

  lemma NormalizeAppend(a: string, b: string)
    ensures Normalized(a + b) == Normalized(a) + Normalized(b)
  {
    FilterAppend(a, b);
  }

  predicate IsNormal(s: string) {
    forall i :: 0 <= i < |s| ==> '0' <= s[i] <= '9' || 'a' <= s[i] <= 'z'
  }

  lemma {:induction false} FilterKeepsOnlyAlphanumerics(s: string)
    ensures forall i :: 0 <= i < |FilterAlphanumeric(s)| ==> IsAsciiAlphanumeric(FilterAlphanumeric(s)[i])
  {
    if s != [] { FilterKeepsOnlyAlphanumerics(s[1..]); }
  }

  lemma {:induction false} NormalStringsStay(s: string)
    requires IsNormal(s)
    ensures Normalized(s) == s
  {
    if s != [] {
      NormalStringsStay(s[1..]);
      assert s == [s[0]] + s[1..];
      NormalizeAppend([s[0]], s[1..]);
      FilterOne(s[0]);
    }
  }

  lemma NormalizeIsIdempotent(s: string)
    ensures IsNormal(Normalized(s)) && Normalized(Normalized(s)) == Normalized(s)
  {
    FilterKeepsOnlyAlphanumerics(s);
    NormalStringsStay(Normalized(s));
  }

  /** One change of spelling: a separator put in or taken out, or a letter's case flipped. */
  datatype Edit = Insert(at: nat, c: char) | Remove(at: nat) | FlipCase(at: nat)

  predicate Applies(s: string, e: Edit) {
    match e
    case Insert(at, c) => at <= |s| && !IsAsciiAlphanumeric(c)
    case Remove(at) => at < |s| && !IsAsciiAlphanumeric(s[at])
    case FlipCase(at) => at < |s|
  }

  function Flipped(c: char): char {
    if 'A' <= c <= 'Z' then (c as int + 32) as char
    else if 'a' <= c <= 'z' then (c as int - 32) as char
    else c
  }

  function Applied(s: string, e: Edit): string
    requires Applies(s, e)
  {
    match e
    case Insert(at, c) => s[..at] + [c] + s[at..]
    case Remove(at) => s[..at] + s[at + 1..]
    case FlipCase(at) => s[..at] + [Flipped(s[at])] + s[at + 1..]
  }

  predicate Respelled(s: string, es: seq<Edit>, t: string)
    decreases |es|
  {
    if es == [] then s == t else Applies(s, es[0]) && Respelled(Applied(s, es[0]), es[1..], t)
  }

  lemma NormalizeMiddle(a: string, m: string, b: string)
    ensures Normalized(a + m + b) == Normalized(a) + Normalized(m) + Normalized(b)
  {
    NormalizeAppend(a + m, b);
    NormalizeAppend(a, m);
  }

  lemma FilterOne(c: char)
    ensures FilterAlphanumeric([c]) == Kept(c)
  {}

  lemma NormalizedChar(c: char)
    ensures Normalized([c]) == if IsAsciiAlphanumeric(c) then [ToAsciiLowercase(c)] else []
    ensures Normalized([Flipped(c)]) == Normalized([c])
  {
    FilterOne(c);
    FilterOne(Flipped(c));
  }

  lemma SeparatorsVanish(a: string, c: char, b: string)
    requires !IsAsciiAlphanumeric(c)
    ensures Normalized(a + [c] + b) == Normalized(a + b)
  {
    NormalizeMiddle(a, [c], b);
    NormalizedChar(c);
    NormalizeAppend(a, b);
  }

  lemma CaseVanishes(a: string, c: char, b: string)
    ensures Normalized(a + [Flipped(c)] + b) == Normalized(a + [c] + b)
  {
    NormalizeMiddle(a, [c], b);
    NormalizeMiddle(a, [Flipped(c)], b);
    NormalizedChar(c);
  }

  lemma OneEditKeepsNormalForm(s: string, e: Edit)
    requires Applies(s, e)
    ensures Normalized(Applied(s, e)) == Normalized(s)
  {
    match e
    case Insert(at, c) =>
      SeparatorsVanish(s[..at], c, s[at..]);
      assert s[..at] + s[at..] == s;
    case Remove(at) =>
      SeparatorsVanish(s[..at], s[at], s[at + 1..]);
      assert s[..at] + [s[at]] + s[at + 1..] == s;
    case FlipCase(at) =>
      CaseVanishes(s[..at], s[at], s[at + 1..]);
      assert s[..at] + [s[at]] + s[at + 1..] == s;
  }

  /** No sequence of separator and case changes alters the sensor a name maps to. */
  lemma {:induction false} RespellingKeepsTheSensor(s: string, es: seq<Edit>, t: string)
    requires Respelled(s, es, t)
    ensures Normalized(s) == Normalized(t) && MapSensorName(s) == MapSensorName(t)
    decreases |es|
  {
    if es != [] {
      OneEditKeepsNormalForm(s, es[0]);
      RespellingKeepsTheSensor(Applied(s, es[0]), es[1..], t);
    }
  }

  lemma RemoveAt(done: string, c: char, tail: string)
    requires !IsAsciiAlphanumeric(c)
    ensures var s := done + [c] + tail; Applies(s, Remove(|done|)) && Applied(s, Remove(|done|)) == done + tail
  {}

  lemma FlipAt(done: string, c: char, tail: string)
    ensures var s := done + [c] + tail;
            Applies(s, FlipCase(|done|)) && Applied(s, FlipCase(|done|)) == done + [Flipped(c)] + tail
  {}

  lemma RespelledFirst(s: string, e: Edit, es: seq<Edit>, t: string)
    requires Applies(s, e) && Respelled(Applied(s, e), es, t)
    ensures Respelled(s, [e] + es, t)
  {}

  lemma NormalizedFirst(c: char, tail: string)
    ensures Normalized([c] + tail) ==
            if IsAsciiAlphanumeric(c) then [ToAsciiLowercase(c)] + Normalized(tail) else Normalized(tail)
  {}

  lemma ReachBySkipping(done: string, c: char, tail: string, es: seq<Edit>)
    requires !IsAsciiAlphanumeric(c) && Respelled(done + tail, es, done + Normalized(tail))
    ensures Respelled(done + [c] + tail, [Remove(|done|)] + es, done + Normalized([c] + tail))
  {
    NormalizedFirst(c, tail);
    RemoveAt(done, c, tail);
    RespelledFirst(done + [c] + tail, Remove(|done|), es, done + Normalized(tail));
  }

  lemma LoweredFirst(done: string, c: char, tail: string)
    requires IsAsciiAlphanumeric(c)
    ensures done + [ToAsciiLowercase(c)] + Normalized(tail) == done + Normalized([c] + tail)
  {
    NormalizedFirst(c, tail);
  }

  lemma ReachByLowering(done: string, c: char, tail: string, es: seq<Edit>, target: string)
    requires IsAsciiAlphanumeric(c) && Respelled(done + [ToAsciiLowercase(c)] + tail, es, target)
    ensures Respelled(done + [c] + tail, (if c == ToAsciiLowercase(c) then [] else [FlipCase(|done|)]) + es, target)
  {
    if c == ToAsciiLowercase(c) {
      assert [] + es == es;
    } else {
      FlipAt(done, c, tail);
      RespelledFirst(done + [c] + tail, FlipCase(|done|), es, target);
    }
  }

  /** The normal form loses nothing but separators and case: every name can be edited down to it, part by part. */
  lemma {:induction false} NormalFormIsReached(done: string, rest: string) returns (es: seq<Edit>)
    requires IsNormal(done)
    ensures Respelled(done + rest, es, done + Normalized(rest))
    decreases |rest|
  {
    if rest == [] {
      es := [];
      assert done + rest == done && done + Normalized(rest) == done;
      return;
    }
    var c, tail := rest[0], rest[1..];
    var l := ToAsciiLowercase(c);
    Regrouped(done, rest);
    if !IsAsciiAlphanumeric(c) {
      es := NormalFormIsReached(done, tail);
      ReachBySkipping(done, c, tail, es);
      es := [Remove(|done|)] + es;
    } else {
      es := NormalFormIsReached(done + [l], tail);
      LoweredFirst(done, c, tail);
      ReachByLowering(done, c, tail, es, done + [l] + Normalized(tail));
      es := (if c == l then [] else [FlipCase(|done|)]) + es;
    }
  }

  lemma Regrouped(done: string, rest: string)
    requires rest != []
    ensures rest == [rest[0]] + rest[1..] && done + rest == done + [rest[0]] + rest[1..]
  {}

  ghost predicate CanBecome(s: string, t: string) { exists es :: Respelled(s, es, t) }

  /** A name maps to a sensor exactly when respelling can turn it into one of the known names. */
  lemma SensorExactlyWhenRespelled(name: string, known: string)
    requires IsNormal(known)
    ensures Normalized(name) == known <==> CanBecome(name, known)
  {
    if Normalized(name) == known {
      var es := NormalFormIsReached([], name);
      assert [] + name == name && [] + Normalized(name) == known;
      assert Respelled(name, es, known);
    } else if CanBecome(name, known) {
      var es :| Respelled(name, es, known);
      RespellingKeepsTheSensor(name, es, known);
      NormalStringsStay(known);
    }
  }

  /** The normal forms that name a sensor; every other name is a generic one. */
  function KnownNames(sensor: SensorName): seq<string> {
    match sensor
    case F75303Local => ["f75303local"]
    case F75303Cpu => ["f75303cpu"]
    case F75303Ddr => ["f75303ddr"]
    case F75303Skin => ["f75303skin"]
    case F75303Apu => ["f75303apu"]
    case F75303Amb => ["f75303amb"]
    case F57397VccGt => ["f57397vccgt"]
    case Battery => ["battery"]
    case Peci => ["peci"]
    case ChargerIc => ["chargeric"]
    case Apu => ["apu"]
    case DgpuVr => ["dgpuvr"]
    case DgpuVram => ["dgpuvram"]
    case DgpuAmb => ["dgpuamb"]
    case DgpuTemp => ["dgputemp", "dgpu"]
    case Virtual => ["virtual"]
    case _ => []
  }

  /** A name maps to a sensor exactly when its normal form is one of that sensor's names. */
  lemma SensorIffNamed(name: string, sensor: SensorName)
    requires sensor != Generic
    ensures MapSensorName(name) == sensor <==> Normalized(name) in KnownNames(sensor)
  {
    var normalized := Normalized(name);
    if NameOf(normalized) == sensor {
      SensorIsNamed(normalized);
    } else if normalized in KnownNames(sensor) {
      NameIsKnown(normalized, sensor);
    }
  }

  lemma SensorIsNamed(normalized: string)
    requires NameOf(normalized) != Generic
    ensures normalized in KnownNames(NameOf(normalized))
  {}

  lemma NameIsKnown(normalized: string, sensor: SensorName)
    requires normalized in KnownNames(sensor)
    ensures NameOf(normalized) == sensor
  {
    if sensor in {F75303Local, F75303Cpu, F75303Ddr, F75303Skin, F75303Apu, F75303Amb, F57397VccGt} {
      FintekNames(normalized, sensor);
    } else {
      OtherNames(normalized, sensor);
    }
  }

  lemma FintekNames(normalized: string, sensor: SensorName)
    requires sensor in {F75303Local, F75303Cpu, F75303Ddr, F75303Skin, F75303Apu, F75303Amb, F57397VccGt}
    requires normalized in KnownNames(sensor)
    ensures NameOf(normalized) == sensor
  {}

  lemma OtherNames(normalized: string, sensor: SensorName)
    requires sensor !in {F75303Local, F75303Cpu, F75303Ddr, F75303Skin, F75303Apu, F75303Amb, F57397VccGt}
    requires normalized in KnownNames(sensor)
    ensures NameOf(normalized) == sensor
  {}

  lemma FintekNamesAreNormal(normalized: string, sensor: SensorName)
    requires sensor in {F75303Local, F75303Cpu, F75303Ddr, F75303Skin, F75303Apu, F75303Amb, F57397VccGt}
    requires normalized in KnownNames(sensor)
    ensures IsNormal(normalized)
  {}

  lemma OtherNamesAreNormal(normalized: string, sensor: SensorName)
    requires sensor !in {F75303Local, F75303Cpu, F75303Ddr, F75303Skin, F75303Apu, F75303Amb, F57397VccGt}
    requires normalized in KnownNames(sensor)
    ensures IsNormal(normalized)
  {}

  lemma KnownNamesAreNormal(normalized: string, sensor: SensorName)
    requires normalized in KnownNames(sensor)
    ensures IsNormal(normalized)
  {
    if sensor in {F75303Local, F75303Cpu, F75303Ddr, F75303Skin, F75303Apu, F75303Amb, F57397VccGt} {
      FintekNamesAreNormal(normalized, sensor);
    } else {
      OtherNamesAreNormal(normalized, sensor);
    }
  }

  /** A name maps to a sensor exactly when it can be respelled into one of that sensor's names. */
  lemma SensorIffRespellable(name: string, sensor: SensorName)
    requires sensor != Generic
    ensures MapSensorName(name) == sensor <==> exists known :: known in KnownNames(sensor) && CanBecome(name, known)
  {
    SensorIffNamed(name, sensor);
    forall known | known in KnownNames(sensor) ensures Normalized(name) == known <==> CanBecome(name, known) {
      KnownNamesAreNormal(known, sensor);
      SensorExactlyWhenRespelled(name, known);
    }
  }

  // ----- thermal snapshot -----

  const EC_FAN_SPEED_STALLED_DEPRECATED: Word := 0xFFFE
  const EC_FAN_SPEED_NOT_PRESENT: Word := 0xFFFF
  const FAN_SLOT_COUNT: nat := 4

  datatype FanState = FanOk | FanNotPresent | FanStalled

  datatype FanReading = FanReading(state: FanState, rpm: Word)

  function FanStateOf(present: bool, stalled: bool): FanState {
    if !present then FanNotPresent else if stalled then FanStalled else FanOk
  }

  function FanWord(fans: seq<Byte>, index: nat): Word
    requires 2 * index + 1 < |fans|
  {
    fans[2 * index] as int + 0x100 * fans[2 * index + 1] as int
  }

  /** A fan's word is stored low byte first. */
  lemma FanWordBytes(fans: seq<Byte>, index: nat)
    requires 2 * index + 1 < |fans|
    ensures Le16(FanWord(fans, index)) == fans[2 * index..2 * index + 2]
  {
    var low, high := fans[2 * index], fans[2 * index + 1];
    var b := Le16(FanWord(fans, index));
    assert b[0] == low && b[1] == high;
  }

  function CountTrue(bs: seq<bool>): nat {
    if bs == [] then 0 else CountTrue(bs[..|bs| - 1]) + if bs[|bs| - 1] then 1 else 0
  }

  /** What one fan's word is read as. */
  predicate ReadsAs(word: Word, rpm: Word, present: bool, stalled: bool) {
    && (present <==> word != EC_FAN_SPEED_NOT_PRESENT)
    && (stalled <==> word == EC_FAN_SPEED_STALLED_DEPRECATED)
    && rpm == if present && !stalled then word else 0
  }

  function PresentAmong(fans: seq<Byte>, n: nat): (count: nat)
    requires 2 * n <= |fans|
    ensures count <= n
  {
    if n == 0 then 0
    else PresentAmong(fans, n - 1) + if FanWord(fans, n - 1) != EC_FAN_SPEED_NOT_PRESENT then 1 else 0
  }

  lemma {:induction false} PresentFansAreCounted(fans: seq<Byte>, present: seq<bool>)
    requires 2 * |present| <= |fans|
    requires forall i :: 0 <= i < |present| ==> (present[i] <==> FanWord(fans, i) != EC_FAN_SPEED_NOT_PRESENT)
    ensures CountTrue(present) == PresentAmong(fans, |present|)
  {
    if present != [] {
      PresentFansAreCounted(fans, present[..|present| - 1]);
    }
  }

  /** Nothing but entry `index` differs from what the array held. */
  twostate predicate OthersKept<T>(a: array<T>, index: nat) reads a {
    forall i :: 0 <= i < a.Length && i != index ==> a[i] == old(a[i])
  }

  /** Records one fan's word: absent fans leave the three entries as they were initialised. */
  method RecordFan(fan: Word, index: nat, fanRpms: array<Word>, fanPresent: array<bool>, fanStalled: array<bool>)
    requires index < fanRpms.Length == fanPresent.Length == fanStalled.Length && fanPresent != fanStalled
    requires fanRpms[index] == 0 && !fanPresent[index] && !fanStalled[index]
    modifies fanRpms, fanPresent, fanStalled
    ensures ReadsAs(fan, fanRpms[index], fanPresent[index], fanStalled[index])
    ensures OthersKept(fanRpms, index) && OthersKept(fanPresent, index) && OthersKept(fanStalled, index)
  {
    if fan != EC_FAN_SPEED_NOT_PRESENT {
      fanPresent[index] := true;
      if fan == EC_FAN_SPEED_STALLED_DEPRECATED {
        fanStalled[index] := true;
      } else {
        fanRpms[index] := fan;
      }
    }
  }

  /** The fan loop over the eight bytes of the EC's fan region. */
  method ReadFans(fans: seq<Byte>)
    returns (fanRpms: array<Word>, fanPresent: array<bool>, fanStalled: array<bool>, fanCount: Byte)
    requires |fans| >= 8
    ensures fanRpms.Length == fanPresent.Length == fanStalled.Length == FAN_SLOT_COUNT
    ensures fanCount == CountTrue(fanPresent[..])
    ensures forall i :: 0 <= i < FAN_SLOT_COUNT ==> ReadsAs(FanWord(fans, i), fanRpms[i], fanPresent[i], fanStalled[i])
  {
    fanRpms := new Word[FAN_SLOT_COUNT](_ => 0);
    fanPresent := new bool[FAN_SLOT_COUNT](_ => false);
    fanStalled := new bool[FAN_SLOT_COUNT](_ => false);
    fanCount := 0;
    for index := 0 to FAN_SLOT_COUNT
      invariant fanCount == PresentAmong(fans, index)
      invariant forall i :: index <= i < FAN_SLOT_COUNT ==> fanRpms[i] == 0 && !fanPresent[i] && !fanStalled[i]
      invariant forall i :: 0 <= i < index ==> ReadsAs(FanWord(fans, i), fanRpms[i], fanPresent[i], fanStalled[i])
    {
      var fan: Word := fans[2 * index] as int + 0x100 * fans[2 * index + 1] as int;
      RecordFan(fan, index, fanRpms, fanPresent, fanStalled);
      if fan != EC_FAN_SPEED_NOT_PRESENT { fanCount := fanCount + 1; }
    }
    PresentFansAreCounted(fans, fanPresent[..]);
  }

  datatype FanSnapshot = FanSnapshot(fanCount: Byte, fan0: FanReading, fan1: FanReading, fan2: FanReading, fan3: FanReading)
  {
    function Fans(): seq<FanReading> { [fan0, fan1, fan2, fan3] }
  }

  function ShownPresent(readings: seq<FanReading>): seq<bool> {
    seq(|readings|, i requires 0 <= i < |readings| => readings[i].state != FanNotPresent)
  }

  /** What the EC's word makes of a published fan. */
  predicate PublishedAs(word: Word, fan: FanReading) {
    && (fan.state == FanNotPresent <==> word == 0xFFFF)
    && (fan.state == FanStalled <==> word == 0xFFFE)
    && fan.rpm == if fan.state == FanOk then word else 0
  }

  lemma ReadingIsPublished(word: Word, rpm: Word, present: bool, stalled: bool)
    requires ReadsAs(word, rpm, present, stalled)
    ensures PublishedAs(word, FanReading(FanStateOf(present, stalled), rpm))
    ensures present <==> FanStateOf(present, stalled) != FanNotPresent
  {}

  lemma CountOfFour(a: bool, b: bool, c: bool, d: bool)
    ensures CountTrue([a, b, c, d]) ==
            (if a then 1 else 0) + (if b then 1 else 0) + (if c then 1 else 0) + (if d then 1 else 0)
  {
    assert CountTrue([a]) == if a then 1 else 0;
    assert [a, b][..1] == [a] && CountTrue([a, b]) == CountTrue([a]) + if b then 1 else 0;
    assert [a, b, c][..2] == [a, b] && CountTrue([a, b, c]) == CountTrue([a, b]) + if c then 1 else 0;
    assert [a, b, c, d][..3] == [a, b, c];
  }

  /** What is published of the fans: the count is that of the fans shown as present; a missing or stalled fan
      shows no speed, and any other shows the EC's word unchanged. */
  method BuildFanSnapshot(fans: seq<Byte>) returns (snapshot: FanSnapshot)
    requires |fans| >= 8
    ensures snapshot.fanCount == CountTrue(ShownPresent(snapshot.Fans()))
    ensures snapshot.fanCount ==
            (if snapshot.fan0.state == FanNotPresent then 0 else 1) +
            (if snapshot.fan1.state == FanNotPresent then 0 else 1) +
            (if snapshot.fan2.state == FanNotPresent then 0 else 1) +
            (if snapshot.fan3.state == FanNotPresent then 0 else 1)
    ensures PublishedAs(FanWord(fans, 0), snapshot.fan0) && PublishedAs(FanWord(fans, 1), snapshot.fan1)
    ensures PublishedAs(FanWord(fans, 2), snapshot.fan2) && PublishedAs(FanWord(fans, 3), snapshot.fan3)
  {
    var rpms, present, stalled, count := ReadFans(fans);
    snapshot := FanSnapshot(
      count,
      FanReading(FanStateOf(present[0], stalled[0]), rpms[0]),
      FanReading(FanStateOf(present[1], stalled[1]), rpms[1]),
      FanReading(FanStateOf(present[2], stalled[2]), rpms[2]),
      FanReading(FanStateOf(present[3], stalled[3]), rpms[3]));
    forall i | 0 <= i < FAN_SLOT_COUNT { ReadingIsPublished(FanWord(fans, i), rpms[i], present[i], stalled[i]); }
    assert ShownPresent(snapshot.Fans()) == present[..] == [present[0], present[1], present[2], present[3]];
    CountOfFour(present[0], present[1], present[2], present[3]);
  }
}
