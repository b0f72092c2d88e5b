/** RPC errors as gRPC statuses, and their travel through response headers or a trailer block. */
module GrpcErrors {
  import opened Wrappers
  import opened HeaderValues
  import opened Metadata

  datatype RpcErrorType =
    | Unknown | Canceled | InvalidArgument | NotFound | AlreadyExists | ResourceExhausted
    | PermissionDenied | FailedPrecondition | Unimplemented | Internal | Unavailable | Unauthenticated

  datatype GrpcWebError = GrpcWebError(errorType: RpcErrorType, message: Option<string>)

  const GRPC_STATUS := "grpc-status"
  const GRPC_MESSAGE := "grpc-message"

  function StatusOf(t: RpcErrorType): (n: nat)
    ensures 1 <= n <= 16
  {
    match t
    case Canceled => 1
    case Unknown => 2
    case InvalidArgument => 3
    case NotFound => 5
    case AlreadyExists => 6
    case PermissionDenied => 7
    case ResourceExhausted => 8
    case FailedPrecondition => 9
    case Unimplemented => 12
    case Internal => 13
    case Unavailable => 14
    case Unauthenticated => 16
  }

  const ALL_TYPES: seq<RpcErrorType> :=
    [Canceled, Unknown, InvalidArgument, NotFound, AlreadyExists, PermissionDenied, ResourceExhausted,
     FailedPrecondition, Unimplemented, Internal, Unavailable, Unauthenticated]

  function FirstWithStatus(types: seq<RpcErrorType>, status: int): RpcErrorType {
    if types == [] then Unknown
    else if StatusOf(types[0]) == status then types[0]
    else FirstWithStatus(types[1..], status)
  }

  /** The inverted table; a status outside it, or one that is not a number, is `Unknown`. */
  function TypeOf(status: Option<int>): RpcErrorType {
    if status.Some? then FirstWithStatus(ALL_TYPES, status.value) else Unknown
  }

  lemma {:induction false} FirstWithStatusInverse(types: seq<RpcErrorType>, t: RpcErrorType)
    requires t in types
    ensures FirstWithStatus(types, StatusOf(t)) == t
  {
    if types[0] != t {
      FirstWithStatusInverse(types[1..], t);
    }
  }

  lemma TypeOfInverse(t: RpcErrorType)
    ensures TypeOf(Some(StatusOf(t))) == t
  {
    assert ALL_TYPES[0] == Canceled && ALL_TYPES[1] == Unknown && ALL_TYPES[2] == InvalidArgument
        && ALL_TYPES[3] == NotFound && ALL_TYPES[4] == AlreadyExists && ALL_TYPES[5] == PermissionDenied
        && ALL_TYPES[6] == ResourceExhausted && ALL_TYPES[7] == FailedPrecondition
        && ALL_TYPES[8] == Unimplemented && ALL_TYPES[9] == Internal && ALL_TYPES[10] == Unavailable
        && ALL_TYPES[11] == Unauthenticated;
    FirstWithStatusInverse(ALL_TYPES, t);
  }

  // Decimal numbers

  predicate IsDigit(c: char) {
    '0' <= c <= '9'
  }

  function Decimal(n: nat): (s: string)
    ensures s != "" && forall i :: 0 <= i < |s| ==> IsDigit(s[i])
  {
    (if n < 10 then "" else Decimal(n / 10)) + ['0' + (n % 10) as char]
  }

  function LeadingDigits(s: string): string {
    if s != "" && IsDigit(s[0]) then [s[0]] + LeadingDigits(s[1..]) else ""
  }

  function DigitsValue(s: string): nat
    requires forall i :: 0 <= i < |s| ==> IsDigit(s[i])
  {
    if s == "" then 0
    else
      assert IsDigit(s[|s| - 1]);
      DigitsValue(s[..|s| - 1]) * 10 + (s[|s| - 1] as int - '0' as int)
  }

  lemma {:induction false} LeadingDigitsAreDigits(s: string)
    ensures forall i :: 0 <= i < |LeadingDigits(s)| ==> IsDigit(LeadingDigits(s)[i])
    ensures (forall i :: 0 <= i < |s| ==> IsDigit(s[i])) ==> LeadingDigits(s) == s
  {
    if s == "" {
    } else {
      LeadingDigitsAreDigits(s[1..]);
      assert [s[0]] + s[1..] == s;
    }
  }

  /** `parseInt(s, 10)`: the leading number after white space and a sign; `None` is `NaN`. */
  function ParseInt(s: string): Option<int> {
    var t := TrimStart(s);
    var signed := t != "" && (t[0] == '-' || t[0] == '+');
    var digits := LeadingDigits(if signed then t[1..] else t);
    LeadingDigitsAreDigits(if signed then t[1..] else t);
    if digits == "" then None
    else
      var n: int := DigitsValue(digits);
      Some(if signed && t[0] == '-' then -n else n)
  }

  lemma {:induction false} DigitsOfDecimal(n: nat)
    ensures DigitsValue(Decimal(n)) == n
  {
    if n >= 10 {
      DigitsOfDecimal(n / 10);
    }
    var s := Decimal(n);
    assert s[..|s| - 1] == if n < 10 then "" else Decimal(n / 10);
    assert s[|s| - 1] == '0' + (n % 10) as char;
  }

  lemma ParseDecimal(n: nat)
    ensures ParseInt(Decimal(n)) == Some(n)
  {
    var s := Decimal(n);
    DigitsOfDecimal(n);
    LeadingDigitsAreDigits(s);
    assert IsDigit(s[0]) && !IsSpace(s[0]) && TrimStart(s) == s;
  }

  // Errors as metadata

  /** One value under `first`, and one under `second` unless it is absent. */
  function OneOrTwo(first: string, value: string, second: string, more: Option<string>): Headers {
    [Header(first, [value])] + if more.Some? then [Header(second, [more.value])] else []
  }

  /** The `grpc-message` value: an empty message is left out. */
  function MessageValue(e: GrpcWebError): Option<string> {
    if e.message.Some? && e.message.value != "" then Some(EncodeHeaderValue(e.message.value)) else None
  }

  function MetadataOf(e: GrpcWebError): Headers {
    OneOrTwo(GRPC_STATUS, Decimal(StatusOf(e.errorType)), GRPC_MESSAGE, MessageValue(e))
  }

  method GetMetadataFromGrpcWebError(error: GrpcWebError) returns (metadata: Headers)
    ensures metadata == MetadataOf(error)
  {
    ErrorKeys();
    metadata := [Header(GRPC_STATUS, [Decimal(StatusOf(error.errorType))])];
    if error.message.Some? && error.message.value != "" {
      AppendNew(metadata, GRPC_MESSAGE, EncodeHeaderValue(error.message.value));
      metadata := Append(metadata, GRPC_MESSAGE, EncodeHeaderValue(error.message.value));
    }
  }

  /** The outcome of reading an error from metadata; `BadMessage` is a thrown `URIError`. */
  datatype Reading = NoError | Failed(error: GrpcWebError) | BadMessage

  function DecodeAll(values: seq<string>): Option<seq<string>> {
    if values == [] then Some([])
    else
      match (DecodeHeaderValue(values[0]), DecodeAll(values[1..]))
      case (Some(first), Some(rest)) => Some([first] + rest)
      case _ => None
  }

  /** The status is read from the first value only, the message from all of them. */
  function ErrorFromMetadata(md: Headers): Reading {
    var statuses := Get(md, GRPC_STATUS);
    if statuses == [] then NoError
    else
      var status := ParseInt(statuses[0]);
      if status == Some(0) then NoError
      else
        match DecodeAll(Get(md, GRPC_MESSAGE))
        case None => BadMessage
        case Some(parts) => Failed(GrpcWebError(TypeOf(status), Some(Join(parts, ","))))
  }

  // What the metadata says, number by number

  /** The status numbers of the gRPC specification, as they stand in the header. */
  function StatusText(t: RpcErrorType): string {
    match t
    case Canceled => "1"
    case Unknown => "2"
    case InvalidArgument => "3"
    case NotFound => "5"
    case AlreadyExists => "6"
    case PermissionDenied => "7"
    case ResourceExhausted => "8"
    case FailedPrecondition => "9"
    case Unimplemented => "12"
    case Internal => "13"
    case Unavailable => "14"
    case Unauthenticated => "16"
  }

  /** The metadata of an error, header by header. */
  lemma ErrorMetadata(e: GrpcWebError)
    ensures MetadataOf(e)
         == [Header("grpc-status", [StatusText(e.errorType)])]
            + if e.message == None || e.message == Some("") then []
              else [Header("grpc-message", [EncodeHeaderValue(e.message.value)])]
  {
    DecimalDigits(StatusOf(e.errorType));
  }

  lemma DecimalDigits(n: nat)
    requires n < 20
    ensures Decimal(n) == if n < 10 then ['0' + n as char] else ['1', '0' + (n - 10) as char]
  {
  }

  /**
   * Reading, for all metadata: no error exactly when no status stands there or its number is 0;
   * otherwise the type with that number, `Unknown` when there is none, and the decoded messages,
   * unless one of them is malformed.
   */
  lemma ReadingMeaning(md: Headers)
    ensures var statuses, parts := Get(md, "grpc-status"), DecodeAll(Get(md, "grpc-message"));
            var reading := ErrorFromMetadata(md);
            && (reading == NoError <==> statuses == [] || ParseInt(statuses[0]) == Some(0))
            && (reading != NoError ==>
                  if parts == None then reading == BadMessage
                  else
                    && reading.Failed? && reading.error.message == Some(Join(parts.value, ","))
                    && (forall t :: ParseInt(statuses[0]) == ParseInt(StatusText(t)) ==> reading.error.errorType == t)
                    && ((forall t :: ParseInt(statuses[0]) != ParseInt(StatusText(t))) ==>
                          reading.error.errorType == Unknown))
  {
    hide ParseInt, DecodeAll, FirstWithStatus;
    forall t: RpcErrorType
      ensures ParseInt(StatusText(t)) == Some(StatusOf(t)) && TypeOf(Some(StatusOf(t))) == t
    {
      DecimalDigits(StatusOf(t));
      ParseDecimal(StatusOf(t));
      TypeOfInverse(t);
    }
    var statuses := Get(md, GRPC_STATUS);
    if statuses != [] && ParseInt(statuses[0]).Some? {
      OutsideTable(ALL_TYPES, ParseInt(statuses[0]).value);
    }
  }

  lemma {:induction false} OutsideTable(types: seq<RpcErrorType>, status: int)
    ensures (forall t :: StatusOf(t) != status) ==> FirstWithStatus(types, status) == Unknown
  {
    if types == [] {
    } else {
      OutsideTable(types[1..], status);
    }
  }

  /** `parseInt`: blanks, a sign and the leading digits; what follows them is ignored. */
  lemma ParseIntMeaning(blanks: string, sign: string, n: nat, rest: string)
    requires IsBlankText(blanks) && (sign == "" || sign == "+" || sign == "-")
    requires rest == "" || !IsDigit(rest[0])
    ensures ParseInt(blanks + sign + Decimal(n) + rest) == Some(if sign == "-" then 0 - n else n)
  {
    hide TrimStart, LeadingDigits, DigitsValue, Decimal;
    var digits := Decimal(n);
    var text, unsigned := sign + digits + rest, digits + rest;
    assert blanks + sign + digits + rest == blanks + text;
    assert IsDigit(digits[0]) && !IsSpace(digits[0]) && unsigned[0] == digits[0];
    if sign == "" {
      assert text == unsigned;
    } else {
      assert text[0] == sign[0] && text[1..] == unsigned;
    }
    TrimStartOfBlanks(blanks, text);
    LeadingDigitsOf(digits, rest);
    DigitsOfDecimal(n);
  }

  lemma {:induction false} TrimStartOfBlanks(blanks: string, s: string)
    requires IsBlankText(blanks) && s != "" && !IsSpace(s[0])
    ensures TrimStart(blanks + s) == s
  {
    if blanks == "" {
      assert blanks + s == s;
    } else {
      assert (blanks + s)[1..] == blanks[1..] + s;
      TrimStartOfBlanks(blanks[1..], s);
    }
  }

  lemma {:induction false} LeadingDigitsOf(digits: string, rest: string)
    requires forall i :: 0 <= i < |digits| ==> IsDigit(digits[i])
    requires rest == "" || !IsDigit(rest[0])
    ensures LeadingDigits(digits + rest) == digits
  {
    if digits == "" {
      assert digits + rest == rest;
    } else {
      assert (digits + rest)[1..] == digits[1..] + rest;
      LeadingDigitsOf(digits[1..], rest);
    }
  }

  /** A text without a number is not a number. */
  lemma ParseIntNothing(s: string)
    ensures ParseInt(s) == None <==>
            var t := TrimStart(s);
            var u := if t != "" && (t[0] == '+' || t[0] == '-') then t[1..] else t;
            u == "" || !IsDigit(u[0])
  {
  }

  /** The error the other side reads: an absent message becomes the empty one. */
  function Received(e: GrpcWebError): GrpcWebError {
    e.(message := Some(if e.message.Some? then e.message.value else ""))
  }

  predicate IsToken(key: string) {
    key != "" && forall i :: 0 <= i < |key| ==> 'a' <= key[i] <= 'z' || key[i] == '-'
  }

  lemma {:induction false} ToLowerOfToken(key: string)
    requires forall i :: 0 <= i < |key| ==> 'a' <= key[i] <= 'z' || key[i] == '-'
    ensures ToLower(key) == key
  {
    if key == "" {
    } else {
      ToLowerOfToken(key[1..]);
      assert [key[0]] + key[1..] == key;
    }
  }

  lemma ErrorKeys()
    ensures GRPC_STATUS != GRPC_MESSAGE && IsToken(GRPC_STATUS) && IsToken(GRPC_MESSAGE)
  {
    assert GRPC_STATUS[5] != GRPC_MESSAGE[5];
  }

  lemma ReadOneOrTwo(first: string, value: string, second: string, more: Option<string>)
    requires first != second
    ensures var md := OneOrTwo(first, value, second, more);
            && Get(md, first) == [value]
            && Get(md, second) == if more.Some? then [more.value] else []
  {
    var md := OneOrTwo(first, value, second, more);
    assert md[1..] == if more.Some? then [Header(second, [more.value])] else [];
    assert Get(md, second) == Get(md[1..], second);
  }

  lemma DecodeMessageValue(e: GrpcWebError)
    ensures DecodeAll(if MessageValue(e).Some? then [MessageValue(e).value] else [])
         == Some(if MessageValue(e).Some? then [e.message.value] else [])
  {
    if MessageValue(e).Some? {
      HeaderValueRoundTrip(e.message.value);
      var encoded := MessageValue(e).value;
      var values := [encoded];
      assert values[1..] == [] && DecodeAll(values[1..]) == Some([]);
      assert DecodeHeaderValue(values[0]) == Some(e.message.value);
      assert DecodeAll(values) == Some([e.message.value] + []);
      assert [e.message.value] + [] == [e.message.value];
    }
  }

  /** The round trip through response headers, and already through the metadata itself. */
  lemma ErrorMetadataRoundTrip(e: GrpcWebError)
    ensures ErrorFromMetadata(MetadataOf(e)) == Failed(Received(e))
  {
    ErrorKeys();
    ReadOneOrTwo(GRPC_STATUS, Decimal(StatusOf(e.errorType)), GRPC_MESSAGE, MessageValue(e));
    ParseDecimal(StatusOf(e.errorType));
    TypeOfInverse(e.errorType);
    DecodeMessageValue(e);
  }

  /** Printable ASCII without blanks: what numbers and percent-encoded text consist of. */
  predicate IsVisible(s: string) {
    s != "" && forall i :: 0 <= i < |s| ==> 0x21 <= s[i] as int <= 0x7E
  }

  lemma VisibleValue(s: string)
    requires IsVisible(s)
    ensures IsTrimmed(s) && NoCrlf(s) && TrimmedValues([s]) == [s]
  {
    assert TrimmedValues([s][1..]) == [];
  }

  lemma LineIsAscii(key: string, value: string)
    requires IsToken(key) && IsVisible(value)
    ensures IsAsciiText(Line(key, value))
  {
  }

  lemma TokenIsKey(key: string)
    requires IsToken(key)
    ensures IsKey(key)
  {
    ToLowerOfToken(key);
  }

  lemma TrailerOfOne(h: Header, value: string)
    requires IsToken(h.key) && h.values == [value] && IsVisible(value)
    ensures TrailerLines([h]) == [Line(h.key, value)] && Normalized([h]) == [h]
  {
    VisibleValue(value);
    assert Lines(h.key, [value][1..]) == [] && [h][1..] == [];
  }

  /** An error without a message prints as one line. */
  lemma BareErrorText(t: RpcErrorType)
    ensures TrailerText(MetadataOf(GrpcWebError(t, None))) == Line(GRPC_STATUS, Decimal(StatusOf(t)))
  {
    hide StatusOf, TrailerLines, Line;
    ErrorKeys();
    var status := Decimal(StatusOf(t));
    assert forall i :: 0 <= i < |status| ==> IsDigit(status[i]);
    var h := Header(GRPC_STATUS, [status]);
    TrailerOfOne(h, status);
    assert MetadataOf(GrpcWebError(t, None)) == [h];
  }

  lemma OneOrTwoIsPrintable(first: string, value: string, second: string, more: Option<string>)
    requires first != second && IsToken(first) && IsToken(second)
    requires IsVisible(value) && (more.Some? ==> IsVisible(more.value))
    ensures var md := OneOrTwo(first, value, second, more);
            IsHeaders(md) && Normalized(md) == md && IsAsciiText(TrailerText(md))
  {
    var md := OneOrTwo(first, value, second, more);
    TokenIsKey(first);
    TokenIsKey(second);
    VisibleValue(value);
    TrailerOfOne(md[0], value);
    LineIsAscii(first, value);
    if more == None {
      assert md == [md[0]];
      assert TrailerText(md) == Line(first, value);
    } else {
      VisibleValue(more.value);
      TrailerOfOne(md[1], more.value);
      LineIsAscii(second, more.value);
      TrailerLinesConcat([md[0]], md[1]);
      assert md == [md[0]] + [md[1]] && md[1..] == [md[1]];
      var lines := [Line(first, value), Line(second, more.value)];
      assert TrailerLines(md) == lines by {
        assert Lines(second, [more.value]) == [Line(second, more.value)] by {
          assert [more.value][1..] == [];
        }
      }
      assert lines[1..] == [lines[1]];
      assert Join(lines[1..], CRLF) == lines[1];
      assert Join(lines, CRLF) == lines[0] + CRLF + Join(lines[1..], CRLF);
      assert TrailerText(md) == lines[0] + CRLF + lines[1];
    }
  }

  lemma ErrorHeadersArePrintable(e: GrpcWebError)
    ensures var md := MetadataOf(e);
            IsHeaders(md) && Normalized(md) == md && IsAsciiText(TrailerText(md))
  {
    hide EncodeHeaderValue, TrailerText, IsHeaders, Normalized, IsAsciiText, StatusOf;
    ErrorKeys();
    var status := Decimal(StatusOf(e.errorType));
    assert forall i :: 0 <= i < |status| ==> IsDigit(status[i]);
    if MessageValue(e).Some? {
      var encoded := MessageValue(e).value;
      EncodedValueIsPlain(e.message.value);
      assert forall i :: 0 <= i < |encoded| ==> encoded[i] in encoded;
    }
    OneOrTwoIsPrintable(GRPC_STATUS, status, GRPC_MESSAGE, MessageValue(e));
  }

  /**
   * Error round trip: every error type with every well-formed Unicode message survives the
   * metadata, the trailer text, its bytes, ASCII decoding and metadata parsing.
   */
  lemma ErrorTrailerRoundTrip(e: GrpcWebError)
    ensures ParseTrailer(TrailerPayload(MetadataOf(e))) == Some(MetadataOf(e))
    ensures ErrorFromMetadata(MetadataOf(e)) == Failed(Received(e))
  {
    ErrorHeadersArePrintable(e);
    TrailerPayloadRoundTrip(MetadataOf(e));
    ErrorMetadataRoundTrip(e);
  }

  // Errors thrown by a handler

  /** An error a handler rejects with; only a `ServerRpcError` says anything to the client. */
  datatype HandlerError =
    | ServerRpcError(errorType: RpcErrorType, message: Option<string>, unsafeTransmittedMessage: Option<string>)
    | OtherError(reason: string)

  function ErrorToSend(err: HandlerError): GrpcWebError {
    match err
    case ServerRpcError(t, _, transmitted) =>
      GrpcWebError(t, if transmitted == Some("") then None else transmitted)
    case OtherError(_) => GrpcWebError(Internal, None)
  }

  /** The text of an optional message; none reads as the empty one. */
  function TextOf(message: Option<string>): string {
    match message
    case None => ""
    case Some(text) => text
  }

  /** What the client is told of a handler's error: the transmitted message, never the private one. */
  function ToldError(err: HandlerError): GrpcWebError {
    match err
    case ServerRpcError(t, _, transmitted) => GrpcWebError(t, Some(TextOf(transmitted)))
    case OtherError(_) => GrpcWebError(Internal, Some(""))
  }

  lemma TransmittedError(err: HandlerError)
    ensures Received(ErrorToSend(err)) == ToldError(err)
    ensures ErrorFromMetadata(MetadataOf(ErrorToSend(err))) == Failed(ToldError(err))
  {
    ErrorMetadataRoundTrip(ErrorToSend(err));
  }
}
