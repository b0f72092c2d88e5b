/** The incremental frame parser of the client, and its laws over any split of the bytes. */
module ChunkParsing {
  import opened Wrappers
  import opened Wire
  import opened Metadata

  datatype Chunk = MessageChunk(data: Bytes) | TrailersChunk(trailers: Headers)

  /** What a call of `parse` returns (`None`: it throws), and the bytes it leaves unread. */
  datatype Parsed = Parsed(chunks: Option<seq<Chunk>>, unread: Bytes)

  function After(before: seq<Chunk>, p: Parsed): Parsed {
    if p.chunks.Some? then Parsed(Some(before + p.chunks.value), p.unread) else p
  }

  lemma AfterNothing(p: Parsed)
    ensures After([], p) == p
  {
    assert p.chunks.Some? ==> [] + p.chunks.value == p.chunks.value;
  }

  lemma AfterAfter(a: seq<Chunk>, b: seq<Chunk>, p: Parsed)
    ensures After(a, After(b, p)) == After(a + b, p)
  {
    assert p.chunks.Some? ==> a + (b + p.chunks.value) == a + b + p.chunks.value;
  }

  /** One call over the unread bytes `b`: messages up to the first trailer block, which ends the call. */
  function ParseOnce(b: Bytes): (p: Parsed)
    ensures |p.unread| <= |b|
  {
    if !HasFrame(b) then Parsed(Some([]), b)
    else
      var frame, rest := FirstFrame(b), b[FirstSize(b)..];
      if IsTrailer(frame) then
        match ParseTrailer(frame.payload)
        case None => Parsed(None, rest)
        case Some(trailers) => Parsed(Some([TrailersChunk(trailers)]), rest)
      else After([MessageChunk(frame.payload)], ParseOnce(rest))
  }

  lemma ParseStep(b: Bytes)
    ensures !HasFrame(b) ==> ParseOnce(b) == Parsed(Some([]), b)
    ensures HasFrame(b) ==>
              var frame, rest := FirstFrame(b), b[FirstSize(b)..];
              ParseOnce(b) == if !IsTrailer(frame) then After([MessageChunk(frame.payload)], ParseOnce(rest))
                              else if ParseTrailer(frame.payload) == None then Parsed(None, rest)
                              else Parsed(Some([TrailersChunk(ParseTrailer(frame.payload).value)]), rest)
  {
  }

  /** One turn of the loop of `parse`, behind the chunks it already has. */
  lemma ParseTurn(whole: Bytes, before: seq<Chunk>, b: Bytes)
    requires ParseOnce(whole) == After(before, ParseOnce(b))
    ensures !HasFrame(b) ==> ParseOnce(whole) == Parsed(Some(before), b)
    ensures HasFrame(b) ==>
              var frame, rest := FirstFrame(b), b[FirstSize(b)..];
              ParseOnce(whole) ==
              if !IsTrailer(frame) then After(before + [MessageChunk(frame.payload)], ParseOnce(rest))
              else if ParseTrailer(frame.payload) == None then Parsed(None, rest)
              else Parsed(Some(before + [TrailersChunk(ParseTrailer(frame.payload).value)]), rest)
  {
    hide ParseOnce, ParseTrailer, FirstFrame, FirstSize;
    ParseStep(b);
    if !HasFrame(b) {
      assert before + [] == before;
    } else if !IsTrailer(FirstFrame(b)) {
      AfterAfter(before, [MessageChunk(FirstFrame(b).payload)], ParseOnce(b[FirstSize(b)..]));
    }
  }

  lemma ParseTrailerText(payload: Bytes)
    ensures ParseTrailer(payload) ==
            if DecodeAscii(payload) == None then None else Some(ParseHeaders(DecodeAscii(payload).value))
  {
  }

  method SliceUint8Array(buffer: array<byte>, from: nat, to: nat) returns (slice: array<byte>)
    requires from <= to <= buffer.Length
    ensures fresh(slice) && slice[..] == buffer[from..to]
  {
    slice := new byte[to - from];
    var arrayIndex := 0;
    for i := from to to
      invariant arrayIndex == i - from
      invariant slice[..arrayIndex] == buffer[from..i]
    {
      slice[arrayIndex] := buffer[i];
      arrayIndex := arrayIndex + 1;
    }
  }

  class ChunkParser {
    var buffer: array?<byte>
    var position: nat

    ghost predicate Valid()
      reads this
    {
      buffer != null ==> position <= buffer.Length
    }

    /** The bytes received and not yet returned as chunks. */
    ghost function Unread(): Bytes
      reads this, buffer
      requires Valid()
    {
      if buffer == null then [] else buffer[position..]
    }

    constructor ()
      ensures Valid() && Unread() == [] && buffer == null
    {
      buffer, position := null, 0;
    }

    method Parse(bytes: array<byte>, flush: bool) returns (result: Option<seq<Chunk>>)
      requires Valid()
      modifies this
      ensures Valid()
      ensures bytes.Length == 0 && flush ==> result == Some([]) && Unread() == old(Unread())
      ensures !(bytes.Length == 0 && flush) ==>
                Parsed(result, Unread()) == ParseOnce(old(Unread()) + bytes[..])
      ensures buffer == old(buffer) || buffer == bytes || fresh(buffer)
    {
      hide ParseOnce, After, ParseTrailer, DecodeAscii, ParseHeaders, FirstFrame, FirstSize;
      if bytes.Length == 0 && flush {
        return Some([]);
      }
      Refill(bytes);

      ghost var whole := Unread();
      var chunkData: seq<Chunk> := [];
      AfterNothing(ParseOnce(whole));
      while true
        invariant Valid() && buffer != null
        invariant buffer == bytes || fresh(buffer)
        invariant ParseOnce(whole) == After(chunkData, ParseOnce(Unread()))
        decreases |Unread()|
      {
        ParseTurn(whole, chunkData, Unread());
        var taken, isTrailer, messageData := TakeFrame();
        if !taken {
          return Some(chunkData);
        }
        if isTrailer {
          var text := DecodeASCII(messageData);
          ParseTrailerText(messageData[..]);
          if text == None {
            return None;
          }
          chunkData := chunkData + [TrailersChunk(ParseHeaders(text.value))];
          return Some(chunkData);
        }
        chunkData := chunkData + [MessageChunk(messageData[..])];
      }
    }

    /** One turn of the loop: reads the header and moves past the frame, if it is complete. */
    method TakeFrame() returns (taken: bool, isTrailer: bool, messageData: array<byte>)
      requires Valid() && buffer != null
      modifies this`position
      ensures Valid()
      ensures taken <==> HasFrame(old(Unread()))
      ensures !taken ==> Unread() == old(Unread())
      ensures taken ==>
                var unread := old(Unread());
                && fresh(messageData) && messageData[..] == FirstFrame(unread).payload
                && isTrailer == IsTrailer(FirstFrame(unread))
                && Unread() == unread[FirstSize(unread)..]
    {
      hide ReadU32;
      taken, isTrailer, messageData := false, false, new byte[0];
      if buffer.Length - position < HEADER_SIZE {
        return;
      }
      var header := SliceUint8Array(buffer, position, position + HEADER_SIZE);
      var msgLength := ReadU32(header[1..]);
      assert header[..][1..] == Unread()[1..HEADER_SIZE];
      if buffer.Length - position < HEADER_SIZE + msgLength {
        return;
      }
      messageData := SliceUint8Array(buffer, position + HEADER_SIZE, position + HEADER_SIZE + msgLength);
      taken, isTrailer := true, header[0] >= TRAILER_FLAG;
      position := position + HEADER_SIZE + msgLength;
    }

    /** Puts the new bytes behind the unread ones, in a fresh buffer if there are any. */
    method Refill(bytes: array<byte>)
      requires Valid()
      modifies this
      ensures Valid() && buffer != null
      ensures Unread() == old(Unread()) + bytes[..]
      ensures buffer == bytes || fresh(buffer)
    {
      if buffer == null || position == buffer.Length {
        buffer, position := bytes, 0;
      } else {
        var remaining := buffer.Length - position;
        var fromExisting := SliceUint8Array(buffer, position, buffer.Length);
        var newBuf := new byte[remaining + bytes.Length];
        forall i | 0 <= i < remaining {
          newBuf[i] := fromExisting[i];
        }
        forall i | 0 <= i < bytes.Length {
          newBuf[remaining + i] := bytes[i];
        }
        assert newBuf[..] == fromExisting[..] + bytes[..];
        buffer, position := newBuf, 0;
      }
    }
  }

  // What one call means in terms of frames

  /** The frames of one call: up to the first trailer. */
  function Batch(fs: seq<WireFrame>): (r: seq<WireFrame>)
    ensures r <= fs
  {
    if fs == [] then []
    else if IsTrailer(fs[0]) then [fs[0]]
    else [fs[0]] + Batch(fs[1..])
  }

  function ChunkOf(f: WireFrame): Option<Chunk> {
    if !IsTrailer(f) then Some(MessageChunk(f.payload))
    else
      match ParseTrailer(f.payload)
      case None => None
      case Some(trailers) => Some(TrailersChunk(trailers))
  }

  function ChunksOf(fs: seq<WireFrame>): Option<seq<Chunk>> {
    if fs == [] then Some([])
    else
      match (ChunkOf(fs[0]), ChunksOf(fs[1..]))
      case (Some(first), Some(rest)) => Some([first] + rest)
      case _ => None
  }

  lemma ChunksOfOne(f: WireFrame)
    ensures ChunksOf([f]) == if ChunkOf(f).Some? then Some([ChunkOf(f).value]) else None
  {
    assert [f][1..] == [];
    assert ChunkOf(f).Some? ==> [ChunkOf(f).value] + [] == [ChunkOf(f).value];
  }

  lemma FramesStep(b: Bytes)
    ensures !HasFrame(b) ==> Frames(b) == [] && Batch(Frames(b)) == []
    ensures HasFrame(b) ==>
              var frame, rest := FirstFrame(b), b[FirstSize(b)..];
              Batch(Frames(b)) == if IsTrailer(frame) then [frame] else [frame] + Batch(Frames(rest))
  {
    hide FirstFrame, ReadU32;
    if HasFrame(b) {
      assert Frames(b)[1..] == Frames(b[FirstSize(b)..]);
    }
  }

  lemma EncodeStep(f: WireFrame, fs: seq<WireFrame>)
    ensures Encode([f]) == FrameBytes(f) && Encode([f] + fs) == FrameBytes(f) + Encode(fs)
  {
    hide FrameBytes;
    assert ([f] + fs)[1..] == fs;
    assert [f][1..] == [];
  }

  /** A call consumes exactly the batch at the front, and returns its frames as chunks. */
  lemma {:induction false} ParseMeaning(b: Bytes)
    ensures var batch := Batch(Frames(b));
            b == Encode(batch) + ParseOnce(b).unread && ParseOnce(b).chunks == ChunksOf(batch)
    decreases |b|
  {
    hide Frames, Batch, ParseOnce, ParseTrailer, Encode, FrameBytes, FirstFrame, FirstSize, ChunksOf, IsTrailer;
    FramesStep(b);
    ParseStep(b);
    if !HasFrame(b) {
      NoFrames();
      assert [] + b == b;
    } else {
      var n, frame := FirstSize(b), FirstFrame(b);
      var rest := b[n..];
      FrameBytesOfFirstFrame(b);
      EncodeStep(frame, Batch(Frames(rest)));
      ChunksOfOne(frame);
      if IsTrailer(frame) {
        assert b[..n] + rest == b;
      } else {
        ParseMeaning(rest);
        ChunksOfConcat([frame], Batch(Frames(rest)));
        Reassemble(b, n, Encode(Batch(Frames(rest))), ParseOnce(rest).unread);
      }
    }
  }

  lemma {:induction false} BatchWithoutTrailer(fs: seq<WireFrame>)
    requires !HasTrailer(fs)
    ensures Batch(fs) == fs
  {
    if fs == [] {
    } else {
      BatchWithoutTrailer(fs[1..]);
    }
  }

  lemma {:induction false} BatchConcat(fs: seq<WireFrame>, gs: seq<WireFrame>)
    ensures Batch(fs + gs) == if HasTrailer(fs) then Batch(fs) else fs + Batch(gs)
  {
    if fs == [] {
      assert fs + gs == gs;
    } else {
      assert (fs + gs)[1..] == fs[1..] + gs;
      BatchConcat(fs[1..], gs);
      if IsTrailer(fs[0]) {
      } else if HasTrailer(fs) {
        var i :| 0 <= i < |fs| && IsTrailer(fs[i]);
        assert IsTrailer(fs[1..][i - 1]);
      }
    }
  }

  lemma {:induction false} ChunksOfConcat(fs: seq<WireFrame>, gs: seq<WireFrame>)
    ensures ChunksOf(fs + gs) ==
            if ChunksOf(fs).Some? && ChunksOf(gs).Some? then Some(ChunksOf(fs).value + ChunksOf(gs).value) else None
  {
    hide ChunkOf;
    if fs == [] {
      assert fs + gs == gs;
      assert ChunksOf(gs).Some? ==> [] + ChunksOf(gs).value == ChunksOf(gs).value;
    } else {
      assert (fs + gs)[1..] == fs[1..] + gs;
      ChunksOfConcat(fs[1..], gs);
      if ChunksOf(fs).Some? && ChunksOf(gs).Some? {
        var first, rest, more := ChunkOf(fs[0]).value, ChunksOf(fs[1..]).value, ChunksOf(gs).value;
        assert [first] + (rest + more) == [first] + rest + more;
      }
    }
  }

  // Runs

  /** What the calls of a run have returned, whether the last one threw, and the bytes left unread. */
  datatype FeedResult = Fed(chunks: seq<Chunk>, threw: bool, unread: Bytes)

  /** One call per piece; the run stops at the first call that throws. */
  function Feed(unread: Bytes, pieces: seq<Bytes>): FeedResult
    decreases pieces
  {
    if pieces == [] then Fed([], false, unread)
    else
      var p := ParseOnce(unread + pieces[0]);
      if p.chunks == None then Fed([], true, p.unread)
      else
        var later := Feed(p.unread, pieces[1..]);
        later.(chunks := p.chunks.value + later.chunks)
  }

  lemma NoFrames()
    ensures Frames([]) == [] && Tail([]) == [] && Encode([]) == [] && ChunksOf([]) == Some([])
  {
  }

  lemma ConsumedFrames(batch: seq<WireFrame>, more: Bytes)
    requires Tail(more) == []
    ensures Frames(Encode(batch) + more) == batch + Frames(more) && Tail(Encode(batch) + more) == []
  {
    hide Frames, Tail, Encode;
    var all := batch + Frames(more);
    EncodeDecode(more);
    EncodeConcat(batch, Frames(more));
    assert Encode(batch) + more == Encode(all) + [];
    DecodeEncode(all, []);
  }

  /** The part of `unread` and the pieces that a run has consumed. */
  function Consumed(unread: Bytes, pieces: seq<Bytes>): Bytes {
    var whole, left := unread + Flatten(pieces), Feed(unread, pieces).unread;
    if |left| <= |whole| then whole[..|whole| - |left|] else []
  }

  /**
   * Conservation, for arbitrary bytes: while no call throws, the chunks returned so far are
   * exactly the frames of the consumed prefix, and that prefix followed by the unread bytes
   * is everything fed.
   */
  lemma {:induction false} Conservation(unread: Bytes, pieces: seq<Bytes>)
    requires !Feed(unread, pieces).threw
    ensures var run, consumed := Feed(unread, pieces), Consumed(unread, pieces);
            && unread + Flatten(pieces) == consumed + run.unread
            && Tail(consumed) == []
            && ChunksOf(Frames(consumed)) == Some(run.chunks)
    decreases pieces
  {
    hide ParseOnce, ChunksOf, Frames, Tail, Encode, Batch, Consumed, Flatten;
    if pieces == [] {
      NoFrames();
      assert Flatten(pieces) == [] by { NothingFlattened(); }
      assert unread + [] == [] + unread;
      ConsumedIs(unread, pieces, []);
    } else {
      var b := unread + pieces[0];
      var p, batch, later := ParseOnce(b), Batch(Frames(b)), Consumed(ParseOnce(b).unread, pieces[1..]);
      ParseMeaning(b);
      Conservation(p.unread, pieces[1..]);
      FlattenFirst(unread, pieces);
      Regroup(Encode(batch), p.unread, Flatten(pieces[1..]), later, Feed(unread, pieces).unread);
      ConsumedIs(unread, pieces, Encode(batch) + later);
      ConsumedFrames(batch, later);
      ChunksOfConcat(batch, Frames(later));
    }
  }

  lemma NothingFlattened()
    ensures Flatten([]) == []
  {
  }

  lemma FlattenFirst(unread: Bytes, pieces: seq<Bytes>)
    requires pieces != []
    ensures unread + Flatten(pieces) == unread + pieces[0] + Flatten(pieces[1..])
  {
  }

  lemma Regroup(a: Bytes, b: Bytes, c: Bytes, d: Bytes, e: Bytes)
    requires b + c == d + e
    ensures a + b + c == a + d + e
  {
    assert a + b + c == a + (b + c) && a + d + e == a + (d + e);
  }

  lemma ConsumedIs(unread: Bytes, pieces: seq<Bytes>, consumed: Bytes)
    requires unread + Flatten(pieces) == consumed + Feed(unread, pieces).unread
    ensures Consumed(unread, pieces) == consumed
  {
    hide Feed, Flatten;
  }

  /** No piece arrives once a trailer frame is complete. */
  predicate NothingAfterTrailer(unread: Bytes, pieces: seq<Bytes>)
    decreases pieces
  {
    |pieces| > 1 ==>
      !HasTrailer(Frames(unread + pieces[0])) && NothingAfterTrailer(Tail(unread + pieces[0]), pieces[1..])
  }

  /** A call that meets no trailer returns every complete frame and keeps the tail. */
  lemma ParseWithoutTrailer(b: Bytes)
    requires !HasTrailer(Frames(b))
    ensures ParseOnce(b) == Parsed(ChunksOf(Frames(b)), Tail(b))
  {
    ParseMeaning(b);
    BatchWithoutTrailer(Frames(b));
    EncodeDecode(b);
    assert b[|Encode(Frames(b))|..] == Tail(b) == ParseOnce(b).unread;
  }

  lemma {:induction false} MessagesHaveChunks(fs: seq<WireFrame>)
    requires !HasTrailer(fs)
    ensures ChunksOf(fs).Some?
  {
    if fs == [] {
    } else {
      MessagesHaveChunks(fs[1..]);
    }
  }

  /** A call over `b` and more bytes continues the call over `b` alone, unless that met a trailer. */
  lemma ParseMore(b: Bytes, more: Bytes)
    requires !HasTrailer(Frames(b))
    ensures ParseOnce(b).chunks.Some? && ParseOnce(b).unread == Tail(b)
    ensures ParseOnce(b + more) == After(ParseOnce(b).chunks.value, ParseOnce(Tail(b) + more))
  {
    hide ParseOnce, ChunksOf, Frames, Tail, Encode, Batch;
    var fs, gs := Frames(b), Frames(Tail(b) + more);
    ParseWithoutTrailer(b);
    MessagesHaveChunks(fs);
    FramesConcat(b, more);
    BatchConcat(fs, gs);
    ChunksOfConcat(fs, Batch(gs));
    ParseMeaning(b + more);
    ParseMeaning(Tail(b) + more);
    var left := ParseOnce(Tail(b) + more).unread;
    assert b + more == Encode(fs + Batch(gs)) + left by {
      EncodeDecode(b);
      EncodeConcat(fs, Batch(gs));
      assert b + more == Encode(fs) + (Tail(b) + more);
      assert Encode(fs) + (Encode(Batch(gs)) + left) == Encode(fs + Batch(gs)) + left;
    }
    SameRest(Encode(fs + Batch(gs)), ParseOnce(b + more).unread, left);
  }

  lemma SameRest(a: Bytes, x: Bytes, y: Bytes)
    requires a + x == a + y
    ensures x == y
  {
    assert (a + x)[|a|..] == x && (a + y)[|a|..] == y;
  }

  /**
   * Split independence: over any split in which no piece follows the first trailer, the calls
   * together return what a single call over the whole returns, throw exactly when it throws, and
   * leave the same bytes unread. What they throw away is less: a single call that throws returns
   * nothing, while the calls before the last have returned the frames complete by then.
   */
  lemma {:induction false} SplitIndependence(unread: Bytes, pieces: seq<Bytes>)
    requires !HasFrame(unread) && NothingAfterTrailer(unread, pieces)
    ensures var run, whole := Feed(unread, pieces), ParseOnce(unread + Flatten(pieces));
            && run.unread == whole.unread
            && (if whole.chunks.Some? then !run.threw && run.chunks == whole.chunks.value
                else
                  && run.threw && pieces != []
                  && ChunksOf(Frames(unread + Flatten(pieces[..|pieces| - 1]))) == Some(run.chunks))
    decreases pieces
  {
    hide ParseOnce, ChunksOf, Frames, Tail, HasTrailer;
    NoFrames();
    if pieces == [] {
      assert unread + Flatten(pieces) == unread;
      NothingParsed(unread);
    } else {
      var b, rest := unread + pieces[0], Flatten(pieces[1..]);
      assert unread + Flatten(pieces) == b + rest;
      if |pieces| == 1 {
        var p := ParseOnce(b);
        assert b + rest == b;
        assert p.chunks.Some? ==> p.chunks.value + [] == p.chunks.value;
        assert unread + Flatten(pieces[..0]) == unread;
        NothingParsed(unread);
      } else {
        ParseMore(b, rest);
        SplitIndependence(Tail(b), pieces[1..]);
        var front := pieces[1..][..|pieces| - 2];
        assert pieces[..|pieces| - 1][1..] == front;
        assert unread + Flatten(pieces[..|pieces| - 1]) == b + Flatten(front);
        ParseWithoutTrailer(b);
        FramesConcat(b, Flatten(front));
        ChunksOfConcat(Frames(b), Frames(Tail(b) + Flatten(front)));
      }
    }
  }

  lemma NothingParsed(b: Bytes)
    requires !HasFrame(b)
    ensures Frames(b) == [] && ParseOnce(b) == Parsed(Some([]), b)
  {
  }

  /** The frames up to the first trailer fill the bytes. */
  predicate EndsWithTrailer(body: Bytes) {
    HasTrailer(Frames(body)) ==> Encode(Batch(Frames(body))) == body
  }

  lemma NoTrailerBefore(b: Bytes, rest: Bytes)
    requires EndsWithTrailer(b + rest) && rest != []
    ensures !HasTrailer(Frames(b))
  {
    hide ParseOnce, Frames, Tail, Encode, Batch, HasTrailer;
    FramesConcat(b, rest);
    BatchConcat(Frames(b), Frames(Tail(b) + rest));
    HasTrailerConcat(Frames(b), Frames(Tail(b) + rest));
    ParseMeaning(b);
    assert |Encode(Batch(Frames(b)))| <= |b| < |b + rest|;
  }

  lemma TrailerComesLater(b: Bytes, rest: Bytes)
    requires EndsWithTrailer(b + rest) && !HasTrailer(Frames(b))
    ensures EndsWithTrailer(Tail(b) + rest)
  {
    hide Frames, Tail, Encode, Batch, HasTrailer;
    var fs, later := Frames(b), Frames(Tail(b) + rest);
    FramesConcat(b, rest);
    BatchConcat(fs, later);
    HasTrailerConcat(fs, later);
    if HasTrailer(later) {
      EncodeDecode(b);
      EncodeConcat(fs, Batch(later));
      SameBehind(Encode(fs), Tail(b), rest, Encode(Batch(later)));
    }
  }

  lemma SameBehind(a: Bytes, tail: Bytes, rest: Bytes, x: Bytes)
    requires a + tail + rest == a + x
    ensures x == tail + rest
  {
    assert a + tail + rest == a + (tail + rest);
    SameRest(a, tail + rest, x);
  }

  /** Non-empty pieces never follow a trailer that ends the body. */
  lemma {:induction false} NonEmptyPieces(unread: Bytes, pieces: seq<Bytes>)
    requires !HasFrame(unread)
    requires forall p :: p in pieces ==> p != []
    requires EndsWithTrailer(unread + Flatten(pieces))
    ensures NothingAfterTrailer(unread, pieces)
    decreases pieces
  {
    hide Frames, Tail, HasTrailer, EndsWithTrailer;
    if |pieces| <= 1 {
    } else {
      var b, rest := unread + pieces[0], Flatten(pieces[1..]);
      assert unread + Flatten(pieces) == b + rest;
      assert rest != [] by {
        assert pieces[1] in pieces && rest == pieces[1] + Flatten(pieces[1..][1..]);
      }
      NoTrailerBefore(b, rest);
      TrailerComesLater(b, rest);
      assert forall p :: p in pieces[1..] ==> p in pieces;
      NonEmptyPieces(Tail(b), pieces[1..]);
    }
  }

  lemma HasTrailerConcat(fs: seq<WireFrame>, gs: seq<WireFrame>)
    ensures HasTrailer(fs + gs) <==> HasTrailer(fs) || HasTrailer(gs)
  {
    if HasTrailer(fs) {
      var i :| 0 <= i < |fs| && IsTrailer(fs[i]);
      assert IsTrailer((fs + gs)[i]);
    }
    if HasTrailer(gs) {
      var i :| 0 <= i < |gs| && IsTrailer(gs[i]);
      assert IsTrailer((fs + gs)[|fs| + i]);
    }
  }
}
