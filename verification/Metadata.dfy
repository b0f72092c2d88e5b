/**
 * Header maps and the trailer block: `encodeTrailer` prints one `key: value` line for each
 * value, and the reference decoder reads CRLF-separated lines back (section 3.2 of RFC 7230).
 */
module Metadata {
  import opened Wrappers
  import opened Wire
  import opened HeaderValues

  /** An entry of `headersMap`; entries stand in insertion order, with distinct keys. */
  datatype Header = Header(key: string, values: seq<string>)
  type Headers = seq<Header>

  const CRLF := "\r\n"

  function Get(hs: Headers, key: string): seq<string> {
    if hs == [] then []
    else if hs[0].key == key then hs[0].values
    else Get(hs[1..], key)
  }

  function Append(hs: Headers, key: string, value: string): Headers {
    if hs == [] then [Header(key, [value])]
    else if hs[0].key == key then [Header(key, hs[0].values + [value])] + hs[1..]
    else [hs[0]] + Append(hs[1..], key, value)
  }

  // Trimming

  /** White space and line terminators, as `String.prototype.trim` strips them. */
  predicate IsSpace(c: char) {
    || '\U{9}' <= c <= '\U{D}' || c == ' ' || c == '\U{A0}' || c == '\U{1680}' || '\U{2000}' <= c <= '\U{200A}'
    || c == '\U{2028}' || c == '\U{2029}' || c == '\U{202F}' || c == '\U{205F}' || c == '\U{3000}' || c == '\U{FEFF}'
  }

  predicate IsTrimmed(s: string) {
    s == "" || (!IsSpace(s[0]) && !IsSpace(s[|s| - 1]))
  }

  function TrimStart(s: string): (r: string)
    ensures r == "" || !IsSpace(r[0])
    ensures IsTrimmed(s) ==> r == s
  {
    if s != "" && IsSpace(s[0]) then TrimStart(s[1..]) else s
  }

  function TrimEnd(s: string): (r: string)
    ensures r <= s
    ensures r == "" || !IsSpace(r[|r| - 1])
    ensures IsTrimmed(s) ==> r == s
  {
    if s != "" && IsSpace(s[|s| - 1]) then TrimEnd(s[..|s| - 1]) else s
  }

  function Trim(s: string): (r: string)
    ensures IsTrimmed(r)
    ensures IsTrimmed(s) ==> r == s
  {
    TrimEnd(TrimStart(s))
  }

  // Printing

  function TrimmedValues(values: seq<string>): (r: seq<string>) {
    if values == [] then []
    else
      var v := Trim(values[0]);
      (if v == "" then [] else [v]) + TrimmedValues(values[1..])
  }

  function Line(key: string, value: string): string {
    key + ": " + value
  }

  function Lines(key: string, values: seq<string>): seq<string> {
    if values == [] then [] else [Line(key, values[0])] + Lines(key, values[1..])
  }

  function TrailerLines(hs: Headers): seq<string> {
    if hs == [] then [] else Lines(hs[0].key, TrimmedValues(hs[0].values)) + TrailerLines(hs[1..])
  }

  function Join(parts: seq<string>, separator: string): string {
    if parts == [] then ""
    else if |parts| == 1 then parts[0]
    else parts[0] + separator + Join(parts[1..], separator)
  }

  function TrailerText(hs: Headers): string {
    Join(TrailerLines(hs), CRLF)
  }

  function TrailerPayload(hs: Headers): Bytes {
    EncodeUtf8(TrailerText(hs))
  }

  // Reading

  function SplitLines(s: string): (lines: seq<string>)
    ensures |lines| > 0
  {
    if |s| < 2 then [s]
    else if s[..2] == CRLF then [""] + SplitLines(s[2..])
    else var rest := SplitLines(s[1..]); [[s[0]] + rest[0]] + rest[1..]
  }

  /** The index of the first colon, or the length of the line when it has none. */
  function ColonIndex(s: string): (i: nat)
    ensures i <= |s|
  {
    if s == "" || s[0] == ':' then 0 else 1 + ColonIndex(s[1..])
  }

  function ToLower(s: string): string {
    if s == "" then ""
    else
      var c := s[0];
      [if 'A' <= c <= 'Z' then (c as int + 32) as char else c] + ToLower(s[1..])
  }

  /** What one line of a trailer block says; a line without a key says nothing. */
  datatype Field = Blank | Field(key: string, value: string)

  function ReadLine(line: string): Field {
    var i := ColonIndex(line);
    if 0 < i < |line| then Field(ToLower(Trim(line[..i])), Trim(line[i + 1..])) else Blank
  }

  function ReadLines(lines: seq<string>): seq<Field> {
    if lines == [] then [] else [ReadLine(lines[0])] + ReadLines(lines[1..])
  }

  function Collect(hs: Headers, fields: seq<Field>): Headers
    decreases fields
  {
    if fields == [] then hs
    else Collect(if fields[0].Blank? then hs else Append(hs, fields[0].key, fields[0].value), fields[1..])
  }

  function ParseHeaders(text: string): Headers {
    Collect([], ReadLines(SplitLines(text)))
  }

  // The laws

  predicate IsHeaderAscii(b: byte) {
    b == 0x9 || b == 0xA || b == 0xD || 0x20 <= b <= 0x7E
  }

  function AsciiText(b: Bytes): (s: string)
    ensures |s| == |b|
    ensures forall i :: 0 <= i < |b| ==> s[i] as int == b[i] as int
  {
    if b == [] then "" else [b[0] as char] + AsciiText(b[1..])
  }

  predicate AllAscii(b: Bytes) {
    forall i :: 0 <= i < |b| ==> IsHeaderAscii(b[i])
  }

  /** `None` is the exception for a byte outside printable ASCII. */
  function DecodeAscii(b: Bytes): Option<string> {
    if AllAscii(b) then Some(AsciiText(b)) else None
  }

  function ParseTrailer(payload: Bytes): Option<Headers> {
    match DecodeAscii(payload)
    case None => None
    case Some(text) => Some(ParseHeaders(text))
  }

  predicate NoCrlf(s: string) {
    forall i :: 0 <= i < |s| - 1 ==> !(s[i] == '\r' && s[i + 1] == '\n')
  }

  /** What `headersMap` guarantees of a key (lower case, no separator); the empty key is allowed. */
  predicate IsKey(key: string) {
    NoCrlf(key) && ':' !in key && IsTrimmed(key) && ToLower(key) == key
  }

  predicate DistinctKeys(hs: Headers) {
    forall i, j :: 0 <= i < j < |hs| ==> hs[i].key != hs[j].key
  }

  predicate IsHeaders(hs: Headers) {
    && DistinctKeys(hs)
    && (forall h :: h in hs ==> IsKey(h.key) && forall v :: v in h.values ==> NoCrlf(Trim(v)))
  }

  /** What a printed header map keeps: trimmed, non-empty values under a non-empty key. */
  function Normalized(hs: Headers): Headers {
    if hs == [] then []
    else
      Entry(hs[0].key, TrimmedValues(hs[0].values)) + Normalized(hs[1..])
  }

  lemma {:induction false} SplitFirstLine(line: string, rest: string)
    requires NoCrlf(line)
    ensures SplitLines(line + CRLF + rest) == [line] + SplitLines(rest)
  {
    var s := line + CRLF + rest;
    if line == "" {
      assert s[2..] == rest;
    } else {
      assert s[1..] == line[1..] + CRLF + rest;
      assert s[..2] != CRLF by {
        assert s[..2][1] == s[1] && s[..2][0] == s[0] == line[0];
      }
      SplitFirstLine(line[1..], rest);
      assert [line[0]] + line[1..] == line;
    }
  }

  lemma {:induction false} SplitLastLine(line: string)
    requires NoCrlf(line)
    ensures SplitLines(line) == [line]
  {
    if |line| >= 2 {
      assert line[..2][0] == line[0] && line[..2][1] == line[1];
      SplitLastLine(line[1..]);
      assert [line[0]] + line[1..] == line;
    }
  }

  lemma {:induction false} SplitJoin(lines: seq<string>)
    requires forall line :: line in lines ==> NoCrlf(line)
    ensures SplitLines(Join(lines, CRLF)) == if lines == [] then [""] else lines
  {
    if |lines| == 1 {
      SplitLastLine(lines[0]);
    } else if |lines| > 1 {
      SplitFirstLine(lines[0], Join(lines[1..], CRLF));
      SplitJoin(lines[1..]);
    }
  }

  lemma {:induction false} ColonIndexAfterKey(key: string, rest: string)
    requires ':' !in key
    ensures ColonIndex(key + ":" + rest) == |key|
  {
    if key == "" {
    } else {
      assert (key + ":" + rest)[1..] == key[1..] + ":" + rest;
      ColonIndexAfterKey(key[1..], rest);
    }
  }

  function PrintedField(key: string, value: string): Field {
    if key == "" then Blank else Field(key, value)
  }

  function PrintedFields(key: string, values: seq<string>): seq<Field> {
    if values == [] then [] else [PrintedField(key, values[0])] + PrintedFields(key, values[1..])
  }

  function TrailerFields(hs: Headers): seq<Field> {
    if hs == [] then [] else PrintedFields(hs[0].key, TrimmedValues(hs[0].values)) + TrailerFields(hs[1..])
  }

  lemma ReadPrintedLine(key: string, value: string)
    requires IsKey(key) && IsTrimmed(value)
    ensures ReadLine(Line(key, value)) == PrintedField(key, value)
  {
    var line := Line(key, value);
    assert line == key + ":" + (" " + value);
    ColonIndexAfterKey(key, " " + value);
    assert line[..|key|] == key && line[|key| + 1..] == " " + value;
    assert (" " + value)[1..] == value;
    assert Trim(" " + value) == value;
  }

  lemma {:induction false} AppendLast(hs: Headers, h: Header, value: string)
    requires forall g :: g in hs ==> g.key != h.key
    ensures Append(hs + [h], h.key, value) == hs + [Header(h.key, h.values + [value])]
  {
    if hs == [] {
    } else {
      assert (hs + [h])[1..] == hs[1..] + [h];
      AppendLast(hs[1..], h, value);
    }
  }

  lemma {:induction false} AppendNew(hs: Headers, key: string, value: string)
    requires forall g :: g in hs ==> g.key != key
    ensures Append(hs, key, value) == hs + [Header(key, [value])]
  {
    if hs == [] {
    } else {
      AppendNew(hs[1..], key, value);
    }
  }

  function AppendAll(hs: Headers, key: string, values: seq<string>): Headers
    decreases values
  {
    if values == [] then hs else AppendAll(Append(hs, key, values[0]), key, values[1..])
  }

  lemma {:induction false} AppendAllLast(hs: Headers, h: Header, values: seq<string>)
    requires forall g :: g in hs ==> g.key != h.key
    ensures AppendAll(hs + [h], h.key, values) == hs + [Header(h.key, h.values + values)]
    decreases values
  {
    if values == [] {
      assert h.values + values == h.values;
    } else {
      AppendLast(hs, h, values[0]);
      AppendAllLast(hs, Header(h.key, h.values + [values[0]]), values[1..]);
      assert h.values + [values[0]] + values[1..] == h.values + values;
    }
  }

  /** The entry a group of printed lines is read back to. */
  function Entry(key: string, values: seq<string>): Headers {
    if key == "" || values == [] then [] else [Header(key, values)]
  }

  lemma AppendAllNew(hs: Headers, key: string, values: seq<string>)
    requires key != "" && forall g :: g in hs ==> g.key != key
    ensures AppendAll(hs, key, values) == hs + Entry(key, values)
  {
    if values == [] {
      assert hs + Entry(key, values) == hs;
    } else {
      AppendNew(hs, key, values[0]);
      AppendAllLast(hs, Header(key, [values[0]]), values[1..]);
      assert [values[0]] + values[1..] == values;
    }
  }

  lemma {:induction false} ReadLinesConcat(lines: seq<string>, more: seq<string>)
    ensures ReadLines(lines + more) == ReadLines(lines) + ReadLines(more)
  {
    if lines == [] {
      assert lines + more == more;
    } else {
      assert (lines + more)[1..] == lines[1..] + more;
      ReadLinesConcat(lines[1..], more);
    }
  }

  lemma {:induction false} ReadPrintedLines(key: string, values: seq<string>)
    requires IsKey(key) && forall v :: v in values ==> IsTrimmed(v)
    ensures ReadLines(Lines(key, values)) == PrintedFields(key, values)
  {
    if values == [] {
    } else {
      ReadPrintedLine(key, values[0]);
      ReadPrintedLines(key, values[1..]);
    }
  }

  lemma {:induction false} TrimmedValuesAreTrimmed(values: seq<string>)
    ensures forall v :: v in TrimmedValues(values) ==> v != "" && IsTrimmed(v)
  {
    if values == [] {
    } else {
      TrimmedValuesAreTrimmed(values[1..]);
    }
  }

  lemma {:induction false} ReadTrailerLines(hs: Headers)
    requires forall h :: h in hs ==> IsKey(h.key)
    ensures ReadLines(TrailerLines(hs)) == TrailerFields(hs)
  {
    if hs == [] {
    } else {
      ReadLinesConcat(Lines(hs[0].key, TrimmedValues(hs[0].values)), TrailerLines(hs[1..]));
      TrimmedValuesAreTrimmed(hs[0].values);
      ReadPrintedLines(hs[0].key, TrimmedValues(hs[0].values));
      ReadTrailerLines(hs[1..]);
    }
  }

  lemma {:induction false} CollectPrinted(hs: Headers, key: string, values: seq<string>, rest: seq<Field>)
    ensures Collect(hs, PrintedFields(key, values) + rest)
         == Collect(if key == "" then hs else AppendAll(hs, key, values), rest)
    decreases values
  {
    var fields := PrintedFields(key, values) + rest;
    if values == [] {
      assert fields == rest;
    } else {
      assert fields[0] == PrintedField(key, values[0]) && fields[1..] == PrintedFields(key, values[1..]) + rest;
      CollectPrinted(if key == "" then hs else Append(hs, key, values[0]), key, values[1..], rest);
    }
  }

  lemma CollectEntry(hs: Headers, key: string, values: seq<string>, rest: seq<Field>)
    requires forall g :: g in hs ==> g.key != key
    ensures Collect(hs, PrintedFields(key, values) + rest) == Collect(hs + Entry(key, values), rest)
  {
    CollectPrinted(hs, key, values, rest);
    if key == "" {
      assert hs + Entry(key, values) == hs;
    } else {
      AppendAllNew(hs, key, values);
    }
  }

  predicate NewKeys(acc: Headers, hs: Headers) {
    forall i, j :: 0 <= i < |acc| && 0 <= j < |hs| ==> acc[i].key != hs[j].key
  }

  lemma NewKeysStep(acc: Headers, hs: Headers, values: seq<string>)
    requires hs != [] && DistinctKeys(hs) && NewKeys(acc, hs)
    ensures forall g :: g in acc ==> g.key != hs[0].key
    ensures DistinctKeys(hs[1..]) && NewKeys(acc + Entry(hs[0].key, values), hs[1..])
  {
  }

  lemma CollectNothing(hs: Headers)
    ensures Collect(hs, []) == hs
  {
  }

  lemma {:induction false} CollectTrailer(acc: Headers, hs: Headers)
    requires DistinctKeys(hs) && NewKeys(acc, hs)
    ensures Collect(acc, TrailerFields(hs)) == acc + Normalized(hs)
    decreases hs
  {
    hide TrimmedValues, Collect, PrintedFields, NewKeys, DistinctKeys, Entry;
    if hs == [] {
      CollectNothing(acc);
      assert acc + Normalized(hs) == acc;
    } else {
      var values := TrimmedValues(hs[0].values);
      var entry := Entry(hs[0].key, values);
      NewKeysStep(acc, hs, values);
      CollectEntry(acc, hs[0].key, values, TrailerFields(hs[1..]));
      CollectTrailer(acc + entry, hs[1..]);
      assert acc + entry + Normalized(hs[1..]) == acc + Normalized(hs);
    }
  }

  lemma LineHasNoCrlf(key: string, value: string)
    requires NoCrlf(key) && NoCrlf(value)
    ensures NoCrlf(Line(key, value))
  {
    var line := Line(key, value);
    forall i | 0 <= i < |line| - 1
      ensures !(line[i] == '\r' && line[i + 1] == '\n')
    {
      if i > |key| + 1 {
        var j := i - |key| - 2;
        assert line[i] == value[j] && line[i + 1] == value[j + 1];
      }
    }
  }

  lemma {:induction false} LinesHaveNoCrlf(key: string, values: seq<string>)
    requires NoCrlf(key) && forall v :: v in values ==> NoCrlf(v)
    ensures forall line :: line in Lines(key, values) ==> NoCrlf(line)
  {
    if values == [] {
    } else {
      LineHasNoCrlf(key, values[0]);
      LinesHaveNoCrlf(key, values[1..]);
    }
  }

  lemma {:induction false} TrimmedValuesHaveNoCrlf(values: seq<string>)
    requires forall v :: v in values ==> NoCrlf(Trim(v))
    ensures forall v :: v in TrimmedValues(values) ==> NoCrlf(v)
  {
    if values == [] {
    } else {
      TrimmedValuesHaveNoCrlf(values[1..]);
    }
  }

  lemma {:induction false} TrailerLinesHaveNoCrlf(hs: Headers)
    requires IsHeaders(hs)
    ensures forall line :: line in TrailerLines(hs) ==> NoCrlf(line)
  {
    if hs == [] {
    } else {
      TrimmedValuesHaveNoCrlf(hs[0].values);
      LinesHaveNoCrlf(hs[0].key, TrimmedValues(hs[0].values));
      TrailerLinesHaveNoCrlf(hs[1..]);
    }
  }

  /** Printing then reading a header map only trims values and drops empty ones. */
  lemma TrailerTextRoundTrip(hs: Headers)
    requires IsHeaders(hs)
    ensures ParseHeaders(TrailerText(hs)) == Normalized(hs)
  {
    TrailerLinesHaveNoCrlf(hs);
    SplitJoin(TrailerLines(hs));
    ReadTrailerLines(hs);
    CollectTrailer([], hs);
    assert Collect([], ReadLines([""])) == Collect([], ReadLines([]));
  }

  predicate IsAsciiText(s: string) {
    forall i :: 0 <= i < |s| ==> s[i] as int < 0x80 && IsHeaderAscii(s[i] as int)
  }

  lemma {:induction false} AsciiRoundTrip(s: string)
    requires IsAsciiText(s)
    ensures DecodeAscii(EncodeUtf8(s)) == Some(s)
  {
    if s == "" {
    } else {
      AsciiRoundTrip(s[1..]);
      assert EncodeUtf8(s) == [s[0] as int] + EncodeUtf8(s[1..]);
      assert EncodeUtf8(s)[1..] == EncodeUtf8(s[1..]);
      assert [s[0]] + s[1..] == s;
    }
  }

  /** The same at the level of bytes, through the client's ASCII decoder. */
  lemma TrailerPayloadRoundTrip(hs: Headers)
    requires IsHeaders(hs) && IsAsciiText(TrailerText(hs))
    ensures ParseTrailer(TrailerPayload(hs)) == Some(Normalized(hs))
  {
    AsciiRoundTrip(TrailerText(hs));
    TrailerTextRoundTrip(hs);
  }

  // What the printer and the decoder do, text by text

  /** The bytes the decoder lets pass, and the text they stand for. */
  lemma AsciiBytes(b: Bytes)
    ensures DecodeAscii(b).Some? <==>
            forall i :: 0 <= i < |b| ==>
              b[i] as int == 9 || b[i] as int == 10 || b[i] as int == 13 || 32 <= b[i] as int < 127
    ensures DecodeAscii(b).Some? ==>
              && |DecodeAscii(b).value| == |b|
              && forall i :: 0 <= i < |b| ==> DecodeAscii(b).value[i] as int == b[i] as int
  {
    assert forall i :: 0 <= i < |b| ==>
      (IsHeaderAscii(b[i]) <==>
         b[i] as int == 9 || b[i] as int == 10 || b[i] as int == 13 || 32 <= b[i] as int < 127);
  }

  /** Looking up a key finds the values of its entry, if there is one. */
  lemma {:induction false} GetMeaning(hs: Headers, key: string, i: nat)
    requires DistinctKeys(hs)
    ensures i < |hs| ==> Get(hs, hs[i].key) == hs[i].values
    ensures (forall j :: 0 <= j < |hs| ==> hs[j].key != key) ==> Get(hs, key) == []
  {
    if hs == [] {
    } else {
      GetMeaning(hs[1..], key, if i > 0 then i - 1 else 0);
      assert forall j :: 0 <= j < |hs[1..]| ==> hs[1..][j] == hs[j + 1];
    }
  }

  lemma {:induction false} ToLowerMeaning(s: string, i: nat)
    requires i < |s|
    ensures |ToLower(s)| == |s|
    ensures ToLower(s)[i] as int == s[i] as int + if 'A' <= s[i] <= 'Z' then 32 else 0
  {
    if |s| > 1 {
      ToLowerMeaning(s[1..], if i > 0 then i - 1 else 0);
    }
  }

  /** One line is read as a key, in lower case, and a value, whatever blanks stand around them. */
  lemma HeaderLine(key: string, value: string)
    requires ':' !in key && key != "" && NoCrlf(key + ":" + value)
    ensures ParseHeaders(key + ":" + value) == [Header(ToLower(Trim(key)), [Trim(value)])]
  {
    hide Trim, ToLower;
    var line := key + ":" + value;
    SplitLastLine(line);
    ColonIndexAfterKey(key, value);
    assert line[..|key|] == key && line[|key| + 1..] == value;
    var lines: seq<string> := [line];
    assert lines[1..] == [] && ReadLine(line) == Field(ToLower(Trim(key)), Trim(value));
    var fields: seq<Field> := [ReadLine(line)];
    assert ReadLines(lines) == fields + ReadLines(lines[1..]) == fields && fields[1..] == [];
    var read := Append([], fields[0].key, fields[0].value);
    CollectNothing(read);
    assert Collect([], fields) == Collect(read, fields[1..]);
  }

  /** The white space that is trimmed: that of Unicode, the line terminators and the byte order mark. */
  lemma WhiteSpace(c: char)
    ensures var n := c as int;
            IsSpace(c) <==>
            || n in {9, 10, 11, 12, 13, 32, 160, 0x1680, 0x2028, 0x2029, 0x202F, 0x205F, 0x3000, 0xFEFF}
            || 0x2000 <= n <= 0x200A
  {
  }

  predicate IsBlankText(s: string) {
    forall i :: 0 <= i < |s| ==> IsSpace(s[i])
  }

  lemma {:induction false} TrimStartMeaning(s: string) returns (before: string)
    ensures IsBlankText(before) && s == before + TrimStart(s)
  {
    if s == "" || !IsSpace(s[0]) {
      before := "";
    } else {
      before := TrimStartMeaning(s[1..]);
      before := [s[0]] + before;
      assert s == [s[0]] + s[1..];
    }
  }

  lemma {:induction false} TrimEndMeaning(s: string) returns (after: string)
    ensures IsBlankText(after) && s == TrimEnd(s) + after
  {
    if s == "" || !IsSpace(s[|s| - 1]) {
      after := "";
    } else {
      var last := s[|s| - 1];
      after := TrimEndMeaning(s[..|s| - 1]);
      after := after + [last];
      assert s == s[..|s| - 1] + [last];
    }
  }

  /** Trimming takes white space off both ends, and nothing else. */
  lemma TrimMeaning(s: string) returns (before: string, after: string)
    ensures IsBlankText(before) && IsBlankText(after) && s == before + Trim(s) + after
    ensures Trim(s) == "" || (!IsSpace(Trim(s)[0]) && !IsSpace(Trim(s)[|Trim(s)| - 1]))
  {
    before := TrimStartMeaning(s);
    after := TrimEndMeaning(TrimStart(s));
  }

  lemma {:induction false} JoinConcat(a: seq<string>, b: seq<string>, separator: string)
    requires a != [] && b != []
    ensures Join(a + b, separator) == Join(a, separator) + separator + Join(b, separator)
    decreases a
  {
    if |a| == 1 {
      assert (a + b)[1..] == b;
    } else {
      assert (a + b)[1..] == a[1..] + b;
      JoinConcat(a[1..], b, separator);
    }
  }

  lemma {:induction false} TrailerLinesAppend(hs: Headers, gs: Headers)
    ensures TrailerLines(hs + gs) == TrailerLines(hs) + TrailerLines(gs)
  {
    if hs == [] {
      assert hs + gs == gs;
    } else {
      assert (hs + gs)[1..] == hs[1..] + gs;
      TrailerLinesAppend(hs[1..], gs);
    }
  }

  lemma OneValueLines(key: string, value: string)
    ensures TrailerLines([Header(key, [value])]) == if Trim(value) == "" then [] else [key + ": " + Trim(value)]
  {
    hide Trim;
    var h: Headers, values: seq<string> := [Header(key, [value])], [value];
    assert h[1..] == [] && values[1..] == [];
    assert TrimmedValues(values) == if Trim(value) == "" then [] else [Trim(value)];
    if Trim(value) != "" {
      var one: seq<string> := [Trim(value)];
      assert one[1..] == [];
      assert Lines(key, one) == [Line(key, Trim(value))];
    }
  }

  /** The printed text, by its laws: one line for a value, and lines separated by CRLF. */
  lemma TrailerTextShape(key: string, value: string, hs: Headers, gs: Headers)
    ensures TrailerText([Header(key, [value])]) == if Trim(value) == "" then "" else key + ": " + Trim(value)
    ensures TrailerLines(hs) != [] && TrailerLines(gs) != [] ==>
              TrailerText(hs + gs) == TrailerText(hs) + "\r\n" + TrailerText(gs)
    ensures TrailerLines(hs) == [] ==> TrailerText(hs) == "" && TrailerText(hs + gs) == TrailerText(gs)
  {
    hide Trim, TrailerLines;
    OneValueLines(key, value);
    TrailerLinesAppend(hs, gs);
    if TrailerLines(hs) != [] && TrailerLines(gs) != [] {
      hide Join;
      JoinConcat(TrailerLines(hs), TrailerLines(gs), CRLF);
    }
    assert [] + TrailerLines(gs) == TrailerLines(gs);
  }

  lemma {:induction false} LinesAppend(key: string, a: seq<string>, b: seq<string>)
    ensures Lines(key, TrimmedValues(a + b)) == Lines(key, TrimmedValues(a)) + Lines(key, TrimmedValues(b))
  {
    hide Trim;
    if a == [] {
      assert a + b == b;
    } else {
      assert (a + b)[1..] == a[1..] + b;
      LinesAppend(key, a[1..], b);
      var v, rest, more := Trim(a[0]), TrimmedValues(a[1..]), TrimmedValues(a[1..] + b);
      if v == "" {
        assert [] + rest == rest && [] + more == more;
      } else {
        assert ([v] + rest)[1..] == rest && ([v] + more)[1..] == more;
      }
    }
  }

  /** Several values under one key print like several entries. */
  lemma ValuesLikeEntries(key: string, a: seq<string>, b: seq<string>)
    ensures TrailerText([Header(key, a + b)]) == TrailerText([Header(key, a), Header(key, b)])
  {
    hide TrimmedValues, Lines;
    LinesAppend(key, a, b);
    var one: Headers, two: Headers := [Header(key, a + b)], [Header(key, a), Header(key, b)];
    assert one[1..] == [] && two[1..] == [Header(key, b)] && two[1..][1..] == [];
    assert TrailerLines(two[1..]) == Lines(key, TrimmedValues(b)) + [];
    assert TrailerLines(one) == Lines(key, TrimmedValues(a + b)) + [];
    assert TrailerLines(two) == TrailerLines(one);
  }

  // The loops of the source

  lemma {:induction false} LinesConcat(key: string, values: seq<string>, value: string)
    ensures Lines(key, values + [value]) == Lines(key, values) + [Line(key, value)]
  {
    if values == [] {
    } else {
      assert (values + [value])[1..] == values[1..] + [value];
      LinesConcat(key, values[1..], value);
    }
  }

  lemma {:induction false} TrimmedValuesConcat(values: seq<string>, value: string)
    ensures TrimmedValues(values + [value])
         == TrimmedValues(values) + (if Trim(value) == "" then [] else [Trim(value)])
  {
    if values == [] {
    } else {
      assert (values + [value])[1..] == values[1..] + [value];
      TrimmedValuesConcat(values[1..], value);
    }
  }

  lemma {:induction false} TrailerLinesConcat(hs: Headers, h: Header)
    ensures TrailerLines(hs + [h]) == TrailerLines(hs) + Lines(h.key, TrimmedValues(h.values))
  {
    if hs == [] {
    } else {
      assert (hs + [h])[1..] == hs[1..] + [h];
      TrailerLinesConcat(hs[1..], h);
    }
  }

  /** One turn of the inner loop below. */
  lemma PrintValue(key: string, values: seq<string>, v: nat)
    requires v < |values|
    ensures Lines(key, TrimmedValues(values[..v + 1]))
         == Lines(key, TrimmedValues(values[..v]))
            + (if Trim(values[v]) == "" then [] else [Line(key, Trim(values[v]))])
  {
    assert values[..v + 1] == values[..v] + [values[v]];
    TrimmedValuesConcat(values[..v], values[v]);
    var kept := TrimmedValues(values[..v]);
    if Trim(values[v]) == "" {
      assert kept + [] == kept;
    } else {
      LinesConcat(key, kept, Trim(values[v]));
    }
  }

  lemma NothingPrinted()
    ensures TrailerLines([]) == [] && TrimmedValues([]) == [] && forall key :: Lines(key, []) == []
  {
  }

  method EncodeTrailer(metadata: Headers) returns (payload: Bytes)
    ensures payload == TrailerPayload(metadata)
  {
    hide Trim, EncodeUtf8, Join, Lines, TrimmedValues;
    NothingPrinted();
    var headers: seq<string> := [];
    for k := 0 to |metadata|
      invariant headers == TrailerLines(metadata[..k])
    {
      var key, values := metadata[k].key, metadata[k].values;
      ghost var before := headers;
      for v := 0 to |values|
        invariant headers == before + Lines(key, TrimmedValues(values[..v]))
      {
        PrintValue(key, values, v);
        var trimmedValue := Trim(values[v]);
        if trimmedValue == "" {
          continue;
        }
        headers := headers + [Line(key, trimmedValue)];
      }
      assert values[..|values|] == values;
      assert metadata[..k + 1] == metadata[..k] + [metadata[k]];
      TrailerLinesConcat(metadata[..k], metadata[k]);
    }
    assert metadata[..|metadata|] == metadata;
    payload := EncodeUtf8(Join(headers, CRLF));
  }

  method DecodeASCII(input: array<byte>) returns (text: Option<string>)
    ensures text == DecodeAscii(input[..])
  {
    for i := 0 to input.Length
      invariant forall j :: 0 <= j < i ==> IsHeaderAscii(input[j])
    {
      if !IsHeaderAscii(input[i]) {
        assert !IsHeaderAscii(input[..][i]);
        return None;
      }
    }
    text := Some(AsciiText(input[..]));
  }

  /** The inverse of `DecodeASCII`; refuses the text when a character is outside printable ASCII. */
  method EncodeASCII(input: string) returns (encoded: Option<array<byte>>)
    ensures encoded.Some? <==> IsAsciiText(input)
    ensures encoded.Some? ==> fresh(encoded.value) && DecodeAscii(encoded.value[..]) == Some(input)
  {
    var bytes := new byte[|input|];
    for i := 0 to |input|
      invariant forall j :: 0 <= j < i ==>
                  input[j] as int < 0x80 && IsHeaderAscii(input[j] as int) && bytes[j] == input[j] as int
    {
      var charCode := input[i] as int;
      if !(charCode < 0x80 && IsHeaderAscii(charCode)) {
        assert !IsAsciiText(input);
        return None;
      }
      bytes[i] := charCode;
    }
    assert AsciiText(bytes[..]) == input;
    encoded := Some(bytes);
  }
}
