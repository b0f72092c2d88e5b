/** Frames on the wire: one flag byte, a 32-bit big-endian length, the payload. */
module Wire {
  type byte = b: int | 0 <= b < 256
  type Bytes = seq<byte>

  const HEADER_SIZE := 5
  const TRAILER_FLAG: byte := 0x80
  const U32_LIMIT := 0x1_0000_0000

  datatype Frame = Frame(flags: byte, payload: Bytes)

  /** A frame whose payload length fits the 32-bit length field. */
  type WireFrame = f: Frame | |f.payload| < U32_LIMIT witness Frame(0, [])

  /** The most significant bit of the flag byte marks a trailer frame. */
  predicate IsTrailer(f: Frame) {
    f.flags >= TRAILER_FLAG
  }

  predicate HasTrailer(fs: seq<WireFrame>) {
    exists i :: 0 <= i < |fs| && IsTrailer(fs[i])
  }

  function U32(n: int): (r: Bytes)
    requires 0 <= n < U32_LIMIT
    ensures |r| == 4
  {
    [n / 0x100 / 0x100 / 0x100, n / 0x100 / 0x100 % 0x100, n / 0x100 % 0x100, n % 0x100]
  }

  function ReadU32(b: Bytes): (n: int)
    requires |b| == 4
    ensures 0 <= n < U32_LIMIT
  {
    var b0: int, b1: int, b2: int, b3: int := b[0], b[1], b[2], b[3];
    ((b0 * 0x100 + b1) * 0x100 + b2) * 0x100 + b3
  }

  lemma U32RoundTrip(n: int)
    requires 0 <= n < U32_LIMIT
    ensures ReadU32(U32(n)) == n
  {
    var b := U32(n);
    var b0: int, b1: int, b2: int, b3: int := b[0], b[1], b[2], b[3];
    assert b0 * 0x100 + b1 == n / 0x100 / 0x100;
    assert (b0 * 0x100 + b1) * 0x100 + b2 == n / 0x100;
  }

  lemma ReadU32RoundTrip(b: Bytes)
    requires |b| == 4
    ensures U32(ReadU32(b)) == b
  {
    var b0: int, b1: int, b2: int, b3: int := b[0], b[1], b[2], b[3];
    var n := ReadU32(b);
    assert n / 0x100 == (b0 * 0x100 + b1) * 0x100 + b2;
    assert n / 0x100 / 0x100 == b0 * 0x100 + b1;
  }

  function FrameBytes(f: WireFrame): (r: Bytes)
    ensures |r| == HEADER_SIZE + |f.payload|
  {
    [f.flags] + U32(|f.payload|) + f.payload
  }

  function Encode(fs: seq<WireFrame>): Bytes {
    if fs == [] then [] else FrameBytes(fs[0]) + Encode(fs[1..])
  }

  function FirstSize(b: Bytes): (n: nat)
    requires |b| >= HEADER_SIZE
    ensures n >= HEADER_SIZE
  {
    HEADER_SIZE + ReadU32(b[1..HEADER_SIZE])
  }

  predicate HasFrame(b: Bytes) {
    |b| >= HEADER_SIZE && |b| >= FirstSize(b)
  }

  function FirstFrame(b: Bytes): WireFrame
    requires HasFrame(b)
  {
    Frame(b[0], b[HEADER_SIZE..FirstSize(b)])
  }

  /** All complete frames of `b`, in order. */
  function Frames(b: Bytes): seq<WireFrame> {
    if HasFrame(b) then [FirstFrame(b)] + Frames(b[FirstSize(b)..]) else []
  }

  /** What follows the last complete frame of `b`. */
  function Tail(b: Bytes): (r: Bytes)
    ensures !HasFrame(r) && |r| <= |b|
  {
    if HasFrame(b) then Tail(b[FirstSize(b)..]) else b
  }

  function Flatten(pieces: seq<Bytes>): Bytes {
    if pieces == [] then [] else pieces[0] + Flatten(pieces[1..])
  }

  /** The length is big-endian, both ways. */
  lemma LengthIsBigEndian(b: Bytes)
    requires |b| == 4
    ensures ReadU32(b) == b[0] as int * 0x100_0000 + b[1] as int * 0x1_0000 + b[2] as int * 0x100 + b[3] as int
    ensures U32(b[0] as int * 0x100_0000 + b[1] as int * 0x1_0000 + b[2] as int * 0x100 + b[3] as int) == b
  {
    ReadU32RoundTrip(b);
  }

  /** The layout of a frame, byte by byte; the most significant bit of the first one marks a trailer. */
  lemma FrameLayout(f: WireFrame)
    ensures var b := FrameBytes(f);
            && |b| == 5 + |f.payload| && b[5..] == f.payload && b[0] == f.flags
            && b[1] as int * 0x100_0000 + b[2] as int * 0x1_0000 + b[3] as int * 0x100 + b[4] as int == |f.payload|
            && (IsTrailer(f) <==> b[0] / 0x80 == 1)
  {
    var length := U32(|f.payload|);
    U32RoundTrip(|f.payload|);
    LengthIsBigEndian(length);
    var b := FrameBytes(f);
    assert b[1] == length[0] && b[2] == length[1] && b[3] == length[2] && b[4] == length[3];
  }

  /** A printed frame is read back unchanged, whatever follows it. */
  lemma FirstFrameOfFrameBytes(f: WireFrame, rest: Bytes)
    ensures var b := FrameBytes(f) + rest;
            HasFrame(b) && FirstFrame(b) == f && FirstSize(b) == |FrameBytes(f)| && b[FirstSize(b)..] == rest
  {
    var b := FrameBytes(f) + rest;
    U32RoundTrip(|f.payload|);
    assert b[1..HEADER_SIZE] == U32(|f.payload|);
  }

  /** Conversely, the first frame of any buffer prints back to the bytes it was read from. */
  lemma FrameBytesOfFirstFrame(b: Bytes)
    requires HasFrame(b)
    ensures FrameBytes(FirstFrame(b)) == b[..FirstSize(b)]
  {
    ReadU32RoundTrip(b[1..HEADER_SIZE]);
    assert b[..FirstSize(b)] == [b[0]] + b[1..HEADER_SIZE] + b[HEADER_SIZE..FirstSize(b)];
  }

  /** Decoding inverts encoding, up to an incomplete tail. */
  lemma {:induction false} DecodeEncode(fs: seq<WireFrame>, tail: Bytes)
    requires !HasFrame(tail)
    ensures Frames(Encode(fs) + tail) == fs
    ensures Tail(Encode(fs) + tail) == tail
  {
    if fs == [] {
      assert Encode(fs) + tail == tail;
    } else {
      FirstFrameOfFrameBytes(fs[0], Encode(fs[1..]) + tail);
      assert Encode(fs) + tail == FrameBytes(fs[0]) + (Encode(fs[1..]) + tail);
      DecodeEncode(fs[1..], tail);
    }
  }

  lemma FirstOfFrames(b: Bytes)
    ensures !HasFrame(b) ==> Frames(b) == [] && Tail(b) == b && Encode([]) == []
    ensures HasFrame(b) ==>
              var rest := b[FirstSize(b)..];
              && Tail(b) == Tail(rest)
              && Encode(Frames(b)) == FrameBytes(FirstFrame(b)) + Encode(Frames(rest))
  {
    hide FirstFrame, FrameBytes, ReadU32;
    if HasFrame(b) {
      assert Frames(b)[1..] == Frames(b[FirstSize(b)..]);
    }
  }

  /** Every byte string is the encoding of its frames followed by its tail. */
  lemma {:induction false} EncodeDecode(b: Bytes)
    ensures Encode(Frames(b)) + Tail(b) == b
  {
    hide Frames, Tail, Encode, FirstFrame, FirstSize, FrameBytes;
    FirstOfFrames(b);
    if !HasFrame(b) {
      assert [] + b == b;
    } else {
      var n := FirstSize(b);
      FrameBytesOfFirstFrame(b);
      EncodeDecode(b[n..]);
      Reassemble(b, n, Encode(Frames(b[n..])), Tail(b));
    }
  }

  lemma Reassemble(b: Bytes, n: nat, middle: Bytes, last: Bytes)
    requires n <= |b| && middle + last == b[n..]
    ensures b[..n] + middle + last == b
  {
    assert b[..n] + middle + last == b[..n] + (middle + last);
  }

  lemma {:induction false} EncodeConcat(fs: seq<WireFrame>, gs: seq<WireFrame>)
    ensures Encode(fs + gs) == Encode(fs) + Encode(gs)
  {
    if fs == [] {
      assert fs + gs == gs;
    } else {
      assert (fs + gs)[1..] == fs[1..] + gs;
      EncodeConcat(fs[1..], gs);
    }
  }

  /** Bytes that arrive later only extend the decoding: the incremental law. */
  lemma {:induction false} FramesConcat(a: Bytes, b: Bytes)
    ensures Frames(a + b) == Frames(a) + Frames(Tail(a) + b)
    ensures Tail(a + b) == Tail(Tail(a) + b)
  {
    if !HasFrame(a) {
    } else {
      var n := FirstSize(a);
      assert (a + b)[1..HEADER_SIZE] == a[1..HEADER_SIZE];
      assert (a + b)[HEADER_SIZE..n] == a[HEADER_SIZE..n];
      assert (a + b)[n..] == a[n..] + b;
      FramesConcat(a[n..], b);
    }
  }

  /** A strict prefix of an encoding decodes to a strict prefix of the frames. */
  lemma FramesOfPrefix(fs: seq<WireFrame>, n: nat)
    requires n < |Encode(fs)|
    ensures Frames(Encode(fs)[..n]) < fs
  {
    var whole := Encode(fs);
    var cut := whole[..n];
    assert whole + [] == whole && cut + whole[n..] == whole;
    DecodeEncode(fs, []);
    FramesConcat(cut, whole[n..]);
    EncodeDecode(cut);
    assert Frames(cut) <= fs;
    assert |Encode(Frames(cut))| < |whole|;
  }

  lemma {:induction false} FlattenConcat(ps: seq<Bytes>, qs: seq<Bytes>)
    ensures Flatten(ps + qs) == Flatten(ps) + Flatten(qs)
  {
    if ps == [] {
      assert ps + qs == qs;
    } else {
      assert (ps + qs)[1..] == ps[1..] + qs;
      FlattenConcat(ps[1..], qs);
    }
  }

  /**
   * Prints a frame into a fresh buffer, or throws: `writeUInt32BE` refuses a length that
   * does not fit 32 bits.
   */
  method EncodeFrame(firstByte: byte, encodedPayload: array<byte>) returns (ok: bool, buf: array<byte>)
    ensures ok <==> encodedPayload.Length < U32_LIMIT
    ensures ok ==> fresh(buf) && buf[..] == FrameBytes(Frame(firstByte, encodedPayload[..]))
    ensures ok ==>
              && buf.Length == 5 + encodedPayload.Length && buf[0] == firstByte && buf[5..] == encodedPayload[..]
              && buf[1] as int * 0x100_0000 + buf[2] as int * 0x1_0000 + buf[3] as int * 0x100 + buf[4] as int
                 == encodedPayload.Length
  {
    buf := new byte[0];
    ok := encodedPayload.Length < U32_LIMIT;
    if !ok {
      return;
    }
    buf := new byte[HEADER_SIZE + encodedPayload.Length];
    buf[0] := firstByte;
    var length := U32(encodedPayload.Length);
    buf[1], buf[2], buf[3], buf[4] := length[0], length[1], length[2], length[3];
    ghost var header := [firstByte] + length;
    for i := 0 to encodedPayload.Length
      invariant buf[..HEADER_SIZE] == header
      invariant buf[HEADER_SIZE..HEADER_SIZE + i] == encodedPayload[..i]
    {
      buf[HEADER_SIZE + i] := encodedPayload[i];
    }
    assert buf[..] == buf[..HEADER_SIZE] + buf[HEADER_SIZE..];
    FrameLayout(Frame(firstByte, encodedPayload[..]));
    assert forall i :: 0 <= i < HEADER_SIZE ==> buf[i] == buf[..][i];
  }
}
