/**
 * `encodeURIComponent` and `decodeURIComponent` over well-formed Unicode strings:
 * percent-encoding (section 2.1 of RFC 3986) of the UTF-8 bytes (section 3 of RFC 3629).
 */
module HeaderValues {
  import opened Wrappers
  import opened Wire

  /** The UTF-8 bytes of a Unicode scalar value. */
  function Utf8Char(c: char): (r: Bytes)
    ensures 1 <= |r| <= 4
  {
    var n := c as int;
    if n < 0x80 then [n]
    else if n < 0x800 then [0xC0 + n / 0x40, 0x80 + n % 0x40]
    else if n < 0x1_0000 then [0xE0 + n / 0x40 / 0x40, 0x80 + n / 0x40 % 0x40, 0x80 + n % 0x40]
    else [0xF0 + n / 0x40 / 0x40 / 0x40, 0x80 + n / 0x40 / 0x40 % 0x40, 0x80 + n / 0x40 % 0x40, 0x80 + n % 0x40]
  }

  function EncodeUtf8(s: string): Bytes {
    if s == "" then [] else Utf8Char(s[0]) + EncodeUtf8(s[1..])
  }

  /** The length of a UTF-8 sequence from its first byte; 0 when no sequence starts so. */
  function Utf8Length(b: byte): (n: nat)
    ensures n <= 4
  {
    if b < 0x80 then 1
    else if b < 0xC0 then 0
    else if b < 0xE0 then 2
    else if b < 0xF0 then 3
    else if b < 0xF8 then 4
    else 0
  }

  function CodePoint(b: Bytes): int
    requires |b| > 0 && |b| == Utf8Length(b[0])
  {
    var b0: int := b[0];
    if |b| == 1 then b0
    else
      var b1: int := b[1];
      if |b| == 2 then (b0 - 0xC0) * 0x40 + (b1 - 0x80)
      else
        var b2: int := b[2];
        if |b| == 3 then ((b0 - 0xE0) * 0x40 + (b1 - 0x80)) * 0x40 + (b2 - 0x80)
        else
          var b3: int := b[3];
          (((b0 - 0xF0) * 0x40 + (b1 - 0x80)) * 0x40 + (b2 - 0x80)) * 0x40 + (b3 - 0x80)
  }

  predicate IsScalar(n: int) {
    0 <= n < 0xD800 || 0xE000 <= n < 0x11_0000
  }

  /** Refuses surrogates, overlong forms and wrong continuation bytes. */
  function DecodeUtf8Char(b: Bytes): Option<char>
    requires |b| > 0 && |b| == Utf8Length(b[0])
  {
    var n := CodePoint(b);
    if IsScalar(n) && Utf8Char(n as char) == b then Some(n as char) else None
  }

  lemma DecodeUtf8CharInverse(c: char)
    ensures var b := Utf8Char(c); |b| == Utf8Length(b[0]) && DecodeUtf8Char(b) == Some(c)
  {
    var n := c as int;
    var b := Utf8Char(c);
    if 0x800 <= n {
      var q := n / 0x40;
      assert q / 0x40 * 0x40 + q % 0x40 == q && q * 0x40 + n % 0x40 == n;
    }
    if 0x1_0000 <= n {
      var q := n / 0x40 / 0x40;
      assert q / 0x40 * 0x40 + q % 0x40 == q;
    }
    assert CodePoint(b) == n;
  }

  predicate IsAlphanumeric(c: char) {
    'A' <= c <= 'Z' || 'a' <= c <= 'z' || '0' <= c <= '9'
  }

  /** The characters `encodeURIComponent` leaves alone. */
  predicate IsUnreserved(c: char) {
    || IsAlphanumeric(c) || c == '-' || c == '_' || c == '.' || c == '!' || c == '~' || c == '*'
    || c == '\'' || c == '(' || c == ')'
  }

  function HexDigit(n: int): (c: char)
    requires 0 <= n < 16
    ensures IsAlphanumeric(c)
  {
    if n < 10 then '0' + n as char else 'A' + (n - 10) as char
  }

  function HexValue(c: char): (r: Option<int>)
    ensures r.Some? ==> 0 <= r.value < 16
  {
    if '0' <= c <= '9' then Some(c as int - '0' as int)
    else if 'A' <= c <= 'F' then Some(c as int - 'A' as int + 10)
    else if 'a' <= c <= 'f' then Some(c as int - 'a' as int + 10)
    else None
  }

  function PercentBytes(b: Bytes): (s: string)
    ensures |s| == 3 * |b|
  {
    if b == [] then "" else ['%', HexDigit(b[0] / 16), HexDigit(b[0] % 16)] + PercentBytes(b[1..])
  }

  /** Reads `n` percent-encoded bytes from the front of `s`. */
  function ReadPercents(s: string, n: nat): (r: Option<Bytes>)
    ensures r.Some? ==> |s| >= 3 * n && |r.value| == n
  {
    if n == 0 then Some([])
    else if |s| < 3 || s[0] != '%' then None
    else
      match (HexValue(s[1]), HexValue(s[2]), ReadPercents(s[3..], n - 1))
      case (Some(high), Some(low), Some(rest)) => Some([high * 16 + low] + rest)
      case _ => None
  }

  function EncodeChar(c: char): string {
    if IsUnreserved(c) then [c] else PercentBytes(Utf8Char(c))
  }

  function EncodeHeaderValue(s: string): string {
    if s == "" then "" else EncodeChar(s[0]) + EncodeHeaderValue(s[1..])
  }

  /** `None` is the `URIError` of malformed input. */
  function DecodeHeaderValue(s: string): Option<string>
    decreases |s|
  {
    if s == "" then Some("")
    else if s[0] != '%' then Prepend(s[0], DecodeHeaderValue(s[1..]))
    else
      match ReadPercents(s, 1)
      case None => None
      case Some(first) =>
        var n := Utf8Length(first[0]);
        if n == 0 then None else
        match ReadPercents(s, n)
        case None => None
        case Some(b) =>
          match DecodeUtf8Char(b)
          case None => None
          case Some(c) => Prepend(c, DecodeHeaderValue(s[3 * n..]))
  }

  function Prepend(c: char, s: Option<string>): Option<string> {
    if s.Some? then Some([c] + s.value) else None
  }

  lemma {:induction false} ReadPercentBytes(b: Bytes, rest: string, n: nat)
    requires n <= |b|
    ensures ReadPercents(PercentBytes(b) + rest, n) == Some(b[..n])
  {
    if n > 0 {
      var s := PercentBytes(b) + rest;
      assert s[3..] == PercentBytes(b[1..]) + rest;
      ReadPercentBytes(b[1..], rest, n - 1);
      assert b[..n] == [b[0]] + b[1..][..n - 1];
    }
  }

  lemma DecodeEncodedChar(c: char, rest: string)
    ensures DecodeHeaderValue(EncodeChar(c) + rest) == Prepend(c, DecodeHeaderValue(rest))
  {
    var s := EncodeChar(c) + rest;
    if IsUnreserved(c) {
      assert s[1..] == rest;
    } else {
      var b := Utf8Char(c);
      DecodeUtf8CharInverse(c);
      ReadPercentBytes(b, rest, 1);
      ReadPercentBytes(b, rest, |b|);
      assert b[..|b|] == b;
      assert s[3 * |b|..] == rest;
    }
  }

  /** Any well-formed Unicode text survives a header value. */
  lemma {:induction false} HeaderValueRoundTrip(s: string)
    ensures DecodeHeaderValue(EncodeHeaderValue(s)) == Some(s)
  {
    if s == "" {
    } else {
      DecodeEncodedChar(s[0], EncodeHeaderValue(s[1..]));
      assert [s[0]] + s[1..] == s;
      HeaderValueRoundTrip(s[1..]);
    }
  }

  predicate IsPlain(c: char) {
    IsUnreserved(c) || c == '%'
  }

  lemma {:induction false} PercentBytesArePlain(b: Bytes)
    ensures forall c :: c in PercentBytes(b) ==> IsPlain(c)
  {
    if b == [] {
    } else {
      PercentBytesArePlain(b[1..]);
    }
  }

  /** The encoded text never holds a blank, a line break, a colon or a non-ASCII character. */
  lemma {:induction false} EncodedValueIsPlain(s: string)
    ensures forall c :: c in EncodeHeaderValue(s) ==> IsPlain(c)
    ensures s != "" ==> EncodeHeaderValue(s) != ""
  {
    if s == "" {
    } else {
      PercentBytesArePlain(Utf8Char(s[0]));
      EncodedValueIsPlain(s[1..]);
    }
  }

  // The encoding itself, as the standards describe it

  /** The lower six bits, which continuation bytes carry. */
  function Low6(b: byte): int {
    b as int % 0x40
  }

  /** The bytes of a character: section 3 of RFC 3629, read off the bits. */
  lemma Utf8Layout(c: char)
    ensures var n, b := c as int, Utf8Char(c);
            var first := b[0] as int;
            if n <= 0x7F then |b| == 1 && first == n
            else
              && (forall i :: 1 <= i < |b| ==> b[i] as int / 0x40 == 2)
              && (if n <= 0x7FF then |b| == 2 && first / 0x20 == 6 && first % 0x20 * 0x40 + Low6(b[1]) == n
                  else if n <= 0xFFFF then
                    && |b| == 3 && first / 0x10 == 14
                    && (first % 0x10 * 0x40 + Low6(b[1])) * 0x40 + Low6(b[2]) == n
                  else
                    && |b| == 4 && first / 8 == 30
                    && ((first % 8 * 0x40 + Low6(b[1])) * 0x40 + Low6(b[2])) * 0x40 + Low6(b[3]) == n)
  {
    var n := c as int;
    if 0x800 <= n {
      var q := n / 0x40;
      assert q / 0x40 * 0x40 + q % 0x40 == q && q * 0x40 + n % 0x40 == n;
    }
    if 0x1_0000 <= n {
      var q := n / 0x40 / 0x40;
      assert q / 0x40 * 0x40 + q % 0x40 == q;
    }
  }

  const HEX := "0123456789ABCDEF"

  /** The percent-encoding of bytes, with upper-case digits. */
  function Percents(b: Bytes): string {
    if b == [] then "" else ['%', HEX[b[0] / 16], HEX[b[0] % 16]] + Percents(b[1..])
  }

  lemma {:induction false} PercentsAreUpperCase(b: Bytes)
    ensures PercentBytes(b) == Percents(b)
  {
    if b == [] {
    } else {
      assert forall n: int :: 0 <= n < 16 ==> HexDigit(n) == HEX[n];
      PercentsAreUpperCase(b[1..]);
    }
  }

  lemma {:induction false} EncodedTextConcat(s: string, t: string)
    ensures EncodeHeaderValue(s + t) == EncodeHeaderValue(s) + EncodeHeaderValue(t)
  {
    if s == "" {
      assert s + t == t;
    } else {
      assert (s + t)[1..] == s[1..] + t;
      EncodedTextConcat(s[1..], t);
    }
  }

  /** Each character stands for itself or for its percent-encoded bytes, and texts are encoded piece by piece. */
  lemma EncodedCharacters(c: char, s: string, t: string)
    ensures var kept := 'A' <= c <= 'Z' || 'a' <= c <= 'z' || '0' <= c <= '9' || c in "-_.!~*'()";
            EncodeHeaderValue([c]) == if kept then [c] else Percents(Utf8Char(c))
    ensures EncodeHeaderValue(s + t) == EncodeHeaderValue(s) + EncodeHeaderValue(t)
  {
    PercentsAreUpperCase(Utf8Char(c));
    EncodedTextConcat(s, t);
    assert [c][1..] == "" && EncodeChar(c) + "" == EncodeChar(c);
  }

  // The decoding

  /** Without a percent sign, a text stands for itself. */
  lemma {:induction false} PlainTextStays(s: string)
    requires '%' !in s
    ensures DecodeHeaderValue(s) == Some(s)
  {
    if s == "" {
    } else {
      assert '%' !in s[1..];
      PlainTextStays(s[1..]);
      assert [s[0]] + s[1..] == s;
    }
  }

  /** Digits of either case are read, and nothing else. */
  lemma HexValueMeaning(c: char, n: int)
    requires 0 <= n < 16
    ensures HexValue(c) == Some(n) <==> c == HEX[n] || c == "0123456789abcdef"[n]
  {
    assert HEX[n] == HexDigit(n);
    assert "0123456789abcdef"[n] == if n < 10 then '0' + n as char else 'a' + (n - 10) as char;
  }

  /**
   * A percent sign begins the encoded bytes of one character, or the text is malformed: truncated
   * sequences, wrong digits, surrogates and overlong forms are refused.
   */
  lemma PercentMeaning(s: string, c: char)
    requires s != "" && s[0] == '%'
    ensures ReadPercents(s, |Utf8Char(c)|) == Some(Utf8Char(c)) ==>
              DecodeHeaderValue(s) == Prepend(c, DecodeHeaderValue(s[3 * |Utf8Char(c)|..]))
    ensures (forall d: char :: ReadPercents(s, |Utf8Char(d)|) != Some(Utf8Char(d))) ==> DecodeHeaderValue(s) == None
  {
    hide Utf8Char, CodePoint;
    if ReadPercents(s, |Utf8Char(c)|) == Some(Utf8Char(c)) {
      DecodeUtf8CharInverse(c);
      FirstPercent(s, |Utf8Char(c)|);
    }
    if DecodeHeaderValue(s).Some? {
      var b := ReadPercents(s, Utf8Length(ReadPercents(s, 1).value[0])).value;
      var d := DecodeUtf8Char(b).value;
      assert Utf8Char(d) == b;
    }
  }

  lemma FirstPercent(s: string, n: nat)
    requires n > 0 && ReadPercents(s, n).Some?
    ensures ReadPercents(s, 1).Some? && ReadPercents(s, 1).value[0] == ReadPercents(s, n).value[0]
  {
    assert ReadPercents(s[3..], 0) == Some([]);
  }
}
