/** Decimal rendering of integers, as in the crate's format strings. */
module Text {

  function Digit(n: nat): (c: char)
    requires n < 10
    ensures '0' <= c <= '9' && c as int - '0' as int == n
  {
    ('0' as int + n) as char
  }

  function Digits(n: nat): (s: string)
    ensures s != [] && forall i :: 0 <= i < |s| ==> '0' <= s[i] <= '9'
  {
    if n < 10 then [Digit(n)] else Digits(n / 10) + [Digit(n % 10)]
  }

  function Decimal(n: int): string {
    if n < 0 then "-" + Digits(-n) else Digits(n)
  }

  /** Reads a string of digits back. */
  function DigitsValue(s: string): nat
    requires forall i :: 0 <= i < |s| ==> '0' <= s[i] <= '9'
  {
    if s == [] then 0
    else DigitsValue(s[..|s| - 1]) * 10 + (s[|s| - 1] as int - '0' as int)
  }

  lemma {:induction false} DigitsRoundTrip(n: nat)
    ensures DigitsValue(Digits(n)) == n
  {
    if n >= 10 {
      DigitsRoundTrip(n / 10);
      assert Digits(n)[..|Digits(n)| - 1] == Digits(n / 10);
    }
  }

  predicate AllDigits(s: string) { s != [] && forall i :: 0 <= i < |s| ==> '0' <= s[i] <= '9' }

  /** The string is the decimal numeral of `n`: digits that read as its magnitude behind the sign, if there is one,
      and without leading zeros. */
  predicate IsNumeral(s: string, n: int) {
    if n >= 0 then AllDigits(s) && DigitsValue(s) == n && (s[0] == '0' ==> s == "0")
    else s != [] && s[0] == '-' && AllDigits(s[1..]) && DigitsValue(s[1..]) == -n && s[1] != '0'
  }

  lemma {:induction false} NoLeadingZero(n: nat)
    ensures Digits(n)[0] == '0' ==> n == 0
  {
    if n >= 10 {
      NoLeadingZero(n / 10);
      assert Digits(n)[0] == Digits(n / 10)[0];
    }
  }

  /** What is printed of an integer reads back as that integer. */
  lemma DecimalReadsBack(n: int)
    ensures IsNumeral(Decimal(n), n)
  {
    var m := if n < 0 then -n else n;
    DigitsRoundTrip(m);
    NoLeadingZero(m);
    if n < 0 { assert Decimal(n)[1..] == Digits(m); }
  }

  lemma SignShows(n: int)
    ensures Decimal(n) != [] && (Decimal(n)[0] == '-' <==> n < 0)
  {}

  /** No two integers print alike. */
  lemma DecimalIsInjective(a: int, b: int)
    requires Decimal(a) == Decimal(b)
    ensures a == b
  {
    SignShows(a);
    SignShows(b);
    if a < 0 {
      assert Digits(-a) == Decimal(a)[1..] && Digits(-b) == Decimal(b)[1..];
      DigitsRoundTrip(-a);
      DigitsRoundTrip(-b);
    } else {
      DigitsRoundTrip(a);
      DigitsRoundTrip(b);
    }
  }
}

/** The tagged status record, its accessors, and its construction from EC errors (src/status.rs). */
module Status {
  import opened Abi
  import opened StatusStore
  import opened StatusThreads
  import opened Text

  datatype StatusCode =
    | Success | NullPointer | InvalidArgument | NoDriverAvailable | UnsupportedDriver | DeviceError
    | EcResponse | UnknownResponseCode | DataUnavailable | NotSupported

  datatype ResponseDetail =
    | UnknownDetail | SuccessDetail | InvalidCommand | Error | InvalidParameter | AccessDenied | InvalidResponse
    | InvalidVersion | InvalidChecksum | InProgress | Unavailable | Timeout | Overflow | InvalidHeader
    | RequestTruncated | ResponseTooBig | BusError | Busy

  /** The union: exactly one field is live. */
  datatype Payload =
    | NoPayload
    | InvalidFanIndex(fanIndex: I32)
    | EcResponsePayload(response: ResponseDetail)
    | UnknownEcResponseCode(responseCode: I32)
    | DeviceErrorPayload(messageToken: I32)

  datatype FrameworkStatus = FrameworkStatus(code: StatusCode, payload: Payload)

  /** The live field is the one the code selects, so no accessor reads a field that is not there. */
  predicate Consistent(s: FrameworkStatus) {
    match s.code
    case InvalidArgument => s.payload.InvalidFanIndex?
    case EcResponse => s.payload.EcResponsePayload?
    case UnknownResponseCode => s.payload.UnknownEcResponseCode?
    case DeviceError => s.payload.DeviceErrorPayload?
    case _ => s.payload.NoPayload?
  }

  function DetailFromRaw(detail: I32): ResponseDetail {
    match detail
    case 0 => SuccessDetail
    case 1 => InvalidCommand
    case 2 => Error
    case 3 => InvalidParameter
    case 4 => AccessDenied
    case 5 => InvalidResponse
    case 6 => InvalidVersion
    case 7 => InvalidChecksum
    case 8 => InProgress
    case 9 => Unavailable
    case 10 => Timeout
    case 11 => Overflow
    case 12 => InvalidHeader
    case 13 => RequestTruncated
    case 14 => ResponseTooBig
    case 15 => BusError
    case 16 => Busy
    case _ => UnknownDetail
  }

  function DetailName(detail: ResponseDetail): string {
    match detail
    case UnknownDetail => "Unknown"
    case SuccessDetail => "Success"
    case InvalidCommand => "InvalidCommand"
    case Error => "Error"
    case InvalidParameter => "InvalidParameter"
    case AccessDenied => "AccessDenied"
    case InvalidResponse => "InvalidResponse"
    case InvalidVersion => "InvalidVersion"
    case InvalidChecksum => "InvalidChecksum"
    case InProgress => "InProgress"
    case Unavailable => "Unavailable"
    case Timeout => "Timeout"
    case Overflow => "Overflow"
    case InvalidHeader => "InvalidHeader"
    case RequestTruncated => "RequestTruncated"
    case ResponseTooBig => "ResponseTooBig"
    case BusError => "BusError"
    case Busy => "Busy"
  }

  /** The discriminant of the ABI enumeration. */
  function DetailValue(detail: ResponseDetail): I32 {
    match detail
    case UnknownDetail => -1
    case SuccessDetail => 0
    case InvalidCommand => 1
    case Error => 2
    case InvalidParameter => 3
    case AccessDenied => 4
    case InvalidResponse => 5
    case InvalidVersion => 6
    case InvalidChecksum => 7
    case InProgress => 8
    case Unavailable => 9
    case Timeout => 10
    case Overflow => 11
    case InvalidHeader => 12
    case RequestTruncated => 13
    case ResponseTooBig => 14
    case BusError => 15
    case Busy => 16
  }

  function With(code: StatusCode, detail: I32): (s: FrameworkStatus)
    ensures s.code == code && Consistent(s)
  {
    match code
    case InvalidArgument => FrameworkStatus(code, InvalidFanIndex(detail))
    case EcResponse => FrameworkStatus(code, EcResponsePayload(DetailFromRaw(detail)))
    case UnknownResponseCode => FrameworkStatus(code, UnknownEcResponseCode(detail))
    case DeviceError => FrameworkStatus(code, DeviceErrorPayload(detail))
    case _ => FrameworkStatus(code, NoPayload)
  }

  function InvalidFanIndexValue(s: FrameworkStatus): Option<I32>
    requires Consistent(s)
  {
    if s.code != InvalidArgument then None else Some(s.payload.fanIndex)
  }

  function EcResponseDetail(s: FrameworkStatus): Option<ResponseDetail>
    requires Consistent(s)
  {
    if s.code != EcResponse then None else Some(s.payload.response)
  }

  function UnknownResponseCodeValue(s: FrameworkStatus): Option<I32>
    requires Consistent(s)
  {
    if s.code != UnknownResponseCode then None else Some(s.payload.responseCode)
  }

  function DeviceErrorMessageToken(s: FrameworkStatus): Option<I32>
    requires Consistent(s)
  {
    if s.code != DeviceError then None else Some(s.payload.messageToken)
  }

  /** An EC response status carries one of the seventeen named codes, numbered as in the EC protocol. */
  type ResponseStatus = d: ResponseDetail | d != UnknownDetail witness SuccessDetail

  datatype EcError = Response(response: ResponseStatus) | UnknownCode(code: U32) | DeviceFailure(message: string)

  /** The text shown for a status, given the messages retained at that moment. */
  function Description(messages: seq<Entry>, s: FrameworkStatus): string
    requires Consistent(s)
  {
    match s.code
    case Success => "Success"
    case NullPointer => "Null pointer"
    case InvalidArgument => "Invalid fan index: " + Decimal(s.payload.fanIndex)
    case NoDriverAvailable => "No EC driver available"
    case UnsupportedDriver => "Requested EC driver " + "is not supported on this system"
    case NotSupported => "This capability " + "is not available in this build for this platform"
    case DeviceError =>
      (match Lookup(messages, s.payload.messageToken)
       case Some(message) => "Device error: " + message
       case None => "Device error")
    case EcResponse =>
      "EC response: " + DetailName(s.payload.response) + " (" + Decimal(DetailValue(s.payload.response)) + ")"
    case UnknownResponseCode => "Unknown EC response code: " + Decimal(s.payload.responseCode)
    case DataUnavailable => "Data unavailable"
  }

  /** Builds the status of an EC error; a device failure stores its message first. */
  method StatusFromError(store: DeviceErrorStore, error: EcError) returns (s: FrameworkStatus)
    modifies store
    ensures Consistent(s)
    ensures EcResponseDetail(s) == if error.Response? then Some(error.response) else None
    ensures UnknownResponseCodeValue(s) ==
            if error.UnknownCode? then Some(if error.code <= 0x7fff_ffff then error.code else 0x7fff_ffff) else None
    ensures DeviceErrorMessageToken(s) == if error.DeviceFailure? then Some(old(store.nextId)) else None
    ensures InvalidFanIndexValue(s) == None
    ensures error.DeviceFailure? ==>
            && store.nextId == Wrap(old(store.nextId) + 1)
            && store.messages == Last(old(store.messages) + [Entry(old(store.nextId), error.message)],
                                      STORED_DEVICE_ERROR_LIMIT)
    ensures !error.DeviceFailure? ==> store.nextId == old(store.nextId) && store.messages == old(store.messages)
  {
    match error
    case Response(response) =>
      s := With(EcResponse, DetailValue(response));
    case UnknownCode(code) =>
      s := With(UnknownResponseCode, if code <= I32_MAX then code else I32_MAX);
    case DeviceFailure(message) =>
      var detail := store.Store(message);
      s := With(DeviceError, detail);
  }

  method StatusDescription(store: DeviceErrorStore, s: FrameworkStatus) returns (text: string)
    requires Consistent(s)
    ensures text == Description(store.messages, s)
  {
    if s.code == DeviceError {
      var message := store.GetMessage(s.payload.messageToken);
      text := if message.Some? then "Device error: " + message.value else "Device error";
    } else {
      text := Description([], s);
    }
  }

  /** Every accessor is silent on every status of another code: at most one of the four answers. */
  lemma AtMostOneAccessorAnswers(code: StatusCode, detail: I32)
    ensures var s := With(code, detail);
            && (InvalidFanIndexValue(s) == if code == InvalidArgument then Some(detail) else None)
            && (UnknownResponseCodeValue(s) == if code == UnknownResponseCode then Some(detail) else None)
            && (DeviceErrorMessageToken(s) == if code == DeviceError then Some(detail) else None)
            && (EcResponseDetail(s) == if code == EcResponse then Some(DetailFromRaw(detail)) else None)
            && (code == EcResponse && 0 <= detail <= 16 ==> DetailValue(EcResponseDetail(s).value) == detail)
  {}

  /** The EC's response codes by their numbers. */
  const RESPONSE_NAMES: seq<string> :=
    ["Success", "InvalidCommand", "Error", "InvalidParameter", "AccessDenied", "InvalidResponse", "InvalidVersion",
     "InvalidChecksum", "InProgress", "Unavailable", "Timeout", "Overflow", "InvalidHeader", "RequestTruncated",
     "ResponseTooBig", "BusError", "Busy"]

  lemma NameOfTheNumber(raw: nat)
    requires raw <= 16
    ensures DetailName(DetailFromRaw(raw)) == RESPONSE_NAMES[raw] && DetailValue(DetailFromRaw(raw)) == raw
  {}

  ghost predicate HasNumeral(text: string, before: string, n: int, after: string) {
    exists numeral: string :: IsNumeral(numeral, n) && text == before + numeral + after
  }

  lemma PrefixedNumeral(before: string, n: int, after: string)
    ensures HasNumeral(before + Decimal(n) + after, before, n, after)
  {
    DecimalReadsBack(n);
  }

  lemma ResponseTextReadsBack(messages: seq<Entry>, detail: I32)
    ensures 0 <= detail <= 16 ==>
      HasNumeral(Description(messages, With(EcResponse, detail)), "EC response: " + RESPONSE_NAMES[detail] + " (",
                 detail, ")")
    ensures !(0 <= detail <= 16) ==>
      HasNumeral(Description(messages, With(EcResponse, detail)), "EC response: Unknown (", -1, ")")
  {
    if 0 <= detail <= 16 {
      NameOfTheNumber(detail);
      PrefixedNumeral("EC response: " + RESPONSE_NAMES[detail] + " (", detail, ")");
    } else {
      assert DetailFromRaw(detail) == UnknownDetail;
      assert "EC response: " + "Unknown" + " (" == "EC response: Unknown (";
      PrefixedNumeral("EC response: Unknown (", -1, ")");
    }
  }

  lemma PlainNumeral(before: string, n: int)
    ensures HasNumeral(before + Decimal(n), before, n, "")
  {
    DecimalReadsBack(n);
    assert before + Decimal(n) + "" == before + Decimal(n);
  }

  /** The texts of the three numeric codes show the number the status was built with, behind the response's name for
      a named one. */
  lemma NumericTextsReadBack(messages: seq<Entry>, detail: I32)
    ensures HasNumeral(Description(messages, With(InvalidArgument, detail)), "Invalid fan index: ", detail, "")
    ensures HasNumeral(Description(messages, With(UnknownResponseCode, detail)), "Unknown EC response code: ", detail, "")
    ensures 0 <= detail <= 16 ==>
      HasNumeral(Description(messages, With(EcResponse, detail)), "EC response: " + RESPONSE_NAMES[detail] + " (",
                 detail, ")")
    ensures !(0 <= detail <= 16) ==>
      HasNumeral(Description(messages, With(EcResponse, detail)), "EC response: Unknown (", -1, ")")
  {
    PlainNumeral("Invalid fan index: ", detail);
    PlainNumeral("Unknown EC response code: ", detail);
    ResponseTextReadsBack(messages, detail);
  }

  /** Whatever other threads store meanwhile, a device failure is described by its own message exactly while fewer
      than 64 messages have been pushed behind it and its token is positive, and by the bare text otherwise; unless
      a twin shadows it. For the first 2^31 - 1 allocations both provisos hold. */
  lemma FailureIsDescribedWhileRetained(s: System, k: nat)
    requires Invariant(s) && k < |s.pushed|
    ensures !Shadowed(s, k) || s.issued <= TOKENS ==>
      Description(s.queue, With(DeviceError, s.pushed[k].id)) ==
        if Findable(s.pushed[k].ticket) && |s.pushed| - k <= STORED_DEVICE_ERROR_LIMIT
        then "Device error: " + s.pushed[k].message else "Device error"
    ensures s.issued < 0x8000_0000 ==> Findable(s.pushed[k].ticket)
  {
    LookupIsExact(s, k);
    if s.issued < 0x8000_0000 { EarlyTokensAreFindable(s, k); }
  }

  function Initials(code: StatusCode): (char, char) {
    match code
    case Success => ('S', 'u')
    case NullPointer => ('N', 'u')
    case InvalidArgument => ('I', 'n')
    case NoDriverAvailable => ('N', 'o')
    case UnsupportedDriver => ('R', 'e')
    case DeviceError => ('D', 'e')
    case EcResponse => ('E', 'C')
    case UnknownResponseCode => ('U', 'n')
    case DataUnavailable => ('D', 'a')
    case NotSupported => ('T', 'h')
  }

  predicate StartsWith(text: string, initials: (char, char)) {
    |text| >= 2 && text[0] == initials.0 && text[1] == initials.1
  }

  lemma PrefixStarts(prefix: string, rest: string, initials: (char, char))
    requires StartsWith(prefix, initials)
    ensures StartsWith(prefix + rest, initials)
  {}

  lemma ResponseTextStarts(name: string, number: string)
    ensures StartsWith("EC response: " + name + " (" + number + ")", ('E', 'C'))
  {
    PrefixStarts("EC response: ", name, ('E', 'C'));
    PrefixStarts("EC response: " + name, " (", ('E', 'C'));
    PrefixStarts("EC response: " + name + " (", number, ('E', 'C'));
    PrefixStarts("EC response: " + name + " (" + number, ")", ('E', 'C'));
  }

  lemma PayloadTextsStart(messages: seq<Entry>, s: FrameworkStatus)
    requires Consistent(s) && !s.payload.NoPayload?
    ensures StartsWith(Description(messages, s), Initials(s.code))
  {
    match s.payload
    case InvalidFanIndex(index) => PrefixStarts("Invalid fan index: ", Decimal(index), ('I', 'n'));
    case EcResponsePayload(response) => ResponseTextStarts(DetailName(response), Decimal(DetailValue(response)));
    case UnknownEcResponseCode(code) => PrefixStarts("Unknown EC response code: ", Decimal(code), ('U', 'n'));
    case DeviceErrorPayload(token) =>
  }

  lemma PlainTextsStart(messages: seq<Entry>, s: FrameworkStatus)
    requires Consistent(s) && s.payload.NoPayload?
    ensures StartsWith(Description(messages, s), Initials(s.code))
  {
    match s.code
    case Success =>
    case NullPointer =>
    case NoDriverAvailable =>
    case UnsupportedDriver => PrefixStarts("Requested EC driver ", "is not supported on this system", ('R', 'e'));
    case NotSupported =>
      PrefixStarts("This capability ", "is not available in this build for this platform", ('T', 'h'));
    case DataUnavailable =>
  }

  lemma SameInitials(text: string, a: StatusCode, b: StatusCode)
    requires StartsWith(text, Initials(a)) && StartsWith(text, Initials(b))
    ensures a == b
  {}

  lemma DescriptionsTellTheCode(messages: seq<Entry>, a: FrameworkStatus, b: FrameworkStatus)
    requires Consistent(a) && Consistent(b) && Description(messages, a) == Description(messages, b)
    ensures a.code == b.code
  {
    if a.payload.NoPayload? { PlainTextsStart(messages, a); } else { PayloadTextsStart(messages, a); }
    if b.payload.NoPayload? { PlainTextsStart(messages, b); } else { PayloadTextsStart(messages, b); }
    SameInitials(Description(messages, a), a.code, b.code);
  }

  /** The text loses nothing the record holds: statuses described alike have the same code and the same payload,
      save that a device failure's text shows a message and not the token. */
  lemma DescriptionsDetermineTheRecord(messages: seq<Entry>, a: FrameworkStatus, b: FrameworkStatus)
    requires Consistent(a) && Consistent(b) && Description(messages, a) == Description(messages, b)
    ensures a.code == b.code && (!a.code.DeviceError? ==> a == b)
  {
    DescriptionsTellTheCode(messages, a, b);
    match a.code
    case InvalidArgument =>
      var prefix := "Invalid fan index: ";
      assert Decimal(a.payload.fanIndex) == (prefix + Decimal(a.payload.fanIndex))[|prefix|..];
      assert Decimal(b.payload.fanIndex) == (prefix + Decimal(b.payload.fanIndex))[|prefix|..];
      DecimalIsInjective(a.payload.fanIndex, b.payload.fanIndex);
    case UnknownResponseCode =>
      var prefix := "Unknown EC response code: ";
      assert Decimal(a.payload.responseCode) == (prefix + Decimal(a.payload.responseCode))[|prefix|..];
      assert Decimal(b.payload.responseCode) == (prefix + Decimal(b.payload.responseCode))[|prefix|..];
      DecimalIsInjective(a.payload.responseCode, b.payload.responseCode);
    case EcResponse =>
      DetailTextIsInjective("EC response: ", a.payload.response, b.payload.response);
    case _ =>
  }

  predicate OneWord(name: string) { forall i :: 0 <= i < |name| ==> name[i] != ' ' }

  lemma EarlyNamesAreWords(d: ResponseDetail)
    requires DetailValue(d) < 8
    ensures OneWord(DetailName(d))
  {}

  lemma LateNamesAreWords(d: ResponseDetail)
    requires DetailValue(d) >= 8
    ensures OneWord(DetailName(d))
  {}

  lemma NamesAreWords(d: ResponseDetail)
    ensures OneWord(DetailName(d))
  {
    if DetailValue(d) < 8 { EarlyNamesAreWords(d); } else { LateNamesAreWords(d); }
  }

  lemma DetailTextIsInjective(prefix: string, a: ResponseDetail, b: ResponseDetail)
    requires prefix + DetailName(a) + " (" + Decimal(DetailValue(a)) + ")"
          == prefix + DetailName(b) + " (" + Decimal(DetailValue(b)) + ")"
    ensures a == b
  {
    NamesAreWords(a);
    NamesAreWords(b);
    NumberAfterName(prefix, DetailName(a), DetailName(b), Decimal(DetailValue(a)), Decimal(DetailValue(b)));
    DecimalIsInjective(DetailValue(a), DetailValue(b));
  }

  /** The first space ends the name, so the numbers behind equal texts are equal. */
  lemma NumberAfterName(prefix: string, m: string, n: string, x: string, y: string)
    requires OneWord(m) && OneWord(n)
    requires prefix + m + " (" + x + ")" == prefix + n + " (" + y + ")"
    ensures x == y
  {
    var s := prefix + m + " (" + x + ")";
    var t := prefix + n + " (" + y + ")";
    SpaceAfterName(prefix, m, " (" + x + ")", |n|);
    SpaceAfterName(prefix, n, " (" + y + ")", |m|);
    assert s == prefix + m + (" (" + x + ")") && t == prefix + n + (" (" + y + ")");
    assert x == s[|prefix + m| + 2..|s| - 1];
    assert y == t[|prefix + n| + 2..|t| - 1];
  }

  lemma SpaceAfterName(prefix: string, m: string, rest: string, k: nat)
    requires OneWord(m)
    requires rest != [] && rest[0] == ' '
    ensures (prefix + m + rest)[|prefix + m|] == ' '
    ensures k < |m| ==> (prefix + m + rest)[|prefix| + k] != ' '
  {}
}
