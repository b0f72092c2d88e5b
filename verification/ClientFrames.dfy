/** What the client makes of frames: of a body, and of pieces replayed one after the other. */
module ClientFrames {
  import opened Wrappers
  import opened Wire
  import opened Metadata
  import opened GrpcErrors
  import opened ChunkParsing
  import opened Streams
  import opened GrpcWebClient

  // The reference: what a body means, frame by frame

  function TrailerReading(payload: Bytes): Reading {
    match ParseTrailer(payload)
    case None => BadMessage
    case Some(trailers) => ErrorFromMetadata(trailers)
  }

  /** A frame the client can take in without an exception. */
  predicate CleanFrame<M>(decode: Decoder<M>, f: WireFrame) {
    if IsTrailer(f) then TrailerReading(f.payload) != BadMessage else decode(f.payload).Some?
  }

  predicate Clean<M>(decode: Decoder<M>, fs: seq<WireFrame>) {
    fs == [] || (CleanFrame(decode, fs[0]) && Clean(decode, fs[1..]))
  }

  function FrameEvents<M>(decode: Decoder<M>, context: Option<Context>, f: WireFrame): seq<ClientEvent<M>> {
    if IsTrailer(f) then
      match TrailerReading(f.payload)
      case Failed(e) => [Error(RpcError(e.errorType, e.message, context))]
      case _ => []
    else
      match decode(f.payload)
      case Some(m) => [Message(Response(m, context))]
      case None => []
  }

  function FrameState(f: WireFrame, before: State): State {
    if !IsTrailer(f) then before
    else if TrailerReading(f.payload).Failed? then HasError
    else TrailersReceived
  }

  function Delivered<M>(decode: Decoder<M>, context: Option<Context>, fs: seq<WireFrame>): seq<ClientEvent<M>> {
    if fs == [] then [] else FrameEvents(decode, context, fs[0]) + Delivered(decode, context, fs[1..])
  }

  function StateAfter(fs: seq<WireFrame>, before: State): State
    decreases fs
  {
    if fs == [] then before else StateAfter(fs[1..], FrameState(fs[0], before))
  }

  /** The frames of a body the client looks at: up to the first trailer. */
  function Seen(body: Bytes): seq<WireFrame> {
    Batch(Frames(body))
  }

  function Ending<M>(state: State, end: Option<TransportError>): seq<ClientEvent<M>> {
    if state == HasError then []
    else if end.Some? then [Error(ErrorOfTransport(end.value))]
    else if state == TrailersReceived then [Complete]
    else [Error(RpcError(Unavailable, None, None))]
  }

  /** The events for a list of frames taken in, once the transport has ended. */
  function Told<M>(
      decode: Decoder<M>, context: Context, fs: seq<WireFrame>, end: Option<TransportError>): seq<ClientEvent<M>> {
    [Ready] + Delivered(decode, Some(context), fs) + Ending(StateAfter(fs, IsReady), end)
  }

  /** The events of a response with the given context and body, once its transport has ended. */
  function Reference<M>(
      decode: Decoder<M>, context: Context, body: Bytes, end: Option<TransportError>): seq<ClientEvent<M>> {
    Told(decode, context, Seen(body), end)
  }

  /** The trailer block of a success is empty. */
  lemma EmptyTrailer()
    ensures TrailerReading([]) == NoError
  {
    SplitLastLine("");
    var lines := SplitLines("");
    assert lines == [""] && lines[1..] == [] && ReadLine("") == Blank;
    assert ReadLines(lines) == [Blank] && [Blank][1..] == [];
    assert Collect([], [Blank]) == [];
  }

  /** A trailer that reports no error. */
  predicate IsSuccess(f: WireFrame) {
    IsTrailer(f) && TrailerReading(f.payload) == NoError
  }

  predicate AllSuccess(fs: seq<WireFrame>) {
    forall i :: 0 <= i < |fs| ==> IsSuccess(fs[i])
  }

  // Taking in chunks

  /** The frames before the first that cannot be taken in. */
  function CleanPart<M>(decode: Decoder<M>, fs: seq<WireFrame>): seq<WireFrame> {
    if fs == [] || !CleanFrame(decode, fs[0]) then [] else [fs[0]] + CleanPart(decode, fs[1..])
  }

  /**
   * The frames of one call that take effect: those before the first that cannot be taken in, and
   * none at all when the text of the trailer is refused, which the parser finds first.
   */
  function Kept<M>(decode: Decoder<M>, fs: seq<WireFrame>): seq<WireFrame> {
    if ChunksOf(fs) == None then [] else CleanPart(decode, fs)
  }

  lemma SingleFrame<M>(decode: Decoder<M>, context: Option<Context>, f: WireFrame, before: State)
    ensures Delivered(decode, context, [f]) == FrameEvents(decode, context, f)
    ensures StateAfter([f], before) == FrameState(f, before)
    ensures Clean(decode, [f]) <==> CleanFrame(decode, f)
  {
    hide FrameEvents, FrameState, CleanFrame;
    var fs: seq<WireFrame> := [f];
    assert fs[1..] == [];
    assert FrameEvents(decode, context, f) + [] == FrameEvents(decode, context, f);
    assert Delivered(decode, context, fs) == FrameEvents(decode, context, f) + Delivered(decode, context, fs[1..]);
    assert StateAfter(fs, before) == StateAfter(fs[1..], FrameState(f, before));
    assert Clean(decode, fs) <==> CleanFrame(decode, f) && Clean(decode, fs[1..]);
  }

  lemma HandleChunkMeaning<M>(decode: Decoder<M>, c: Client<M>, f: WireFrame)
    requires ChunkOf(f).Some?
    ensures var h := HandleChunk(decode, c, ChunkOf(f).value);
            && (h.threw <==> !CleanFrame(decode, f))
            && h.client == if h.threw then c else Took(decode, c, [f], c.unread)
  {
    hide ErrorFromMetadata, ParseTrailer, Delivered, StateAfter;
    SingleFrame(decode, c.context, f, c.state);
    assert c.events + [] == c.events;
  }

  lemma {:induction false} HandleChunksMeaning<M>(decode: Decoder<M>, c: Client<M>, fs: seq<WireFrame>)
    requires ChunksOf(fs).Some?
    ensures var h := HandleChunks(decode, c, ChunksOf(fs).value);
            && (h.threw <==> !Clean(decode, fs))
            && h.client == Took(decode, c, CleanPart(decode, fs), c.unread)
    decreases fs
  {
    hide HandleChunk, ChunkOf, CleanFrame, Took;
    NothingTaken(decode, c);
    if fs == [] {
    } else {
      var first, rest := ChunkOf(fs[0]).value, ChunksOf(fs[1..]).value;
      assert ChunksOf(fs).value == [first] + rest && ([first] + rest)[1..] == rest;
      var h := HandleChunk(decode, c, first);
      HandleChunkMeaning(decode, c, fs[0]);
      if !h.threw {
        TookUnread(decode, c, [fs[0]], c.unread);
        HandleChunksMeaning(decode, h.client, fs[1..]);
        TookTook(decode, c, [fs[0]], CleanPart(decode, fs[1..]), c.unread, c.unread);
      }
    }
  }

  lemma {:induction false} CleanFramesHaveChunks<M>(decode: Decoder<M>, fs: seq<WireFrame>)
    requires Clean(decode, fs)
    ensures ChunksOf(fs).Some?
  {
    hide ErrorFromMetadata, ParseTrailer;
    if fs == [] {
    } else {
      CleanFramesHaveChunks(decode, fs[1..]);
    }
  }

  lemma {:induction false} CleanPartMeaning<M>(decode: Decoder<M>, fs: seq<WireFrame>)
    ensures Clean(decode, CleanPart(decode, fs)) && CleanPart(decode, fs) <= fs
    ensures CleanPart(decode, fs) == fs <==> Clean(decode, fs)
  {
    hide CleanFrame;
    if fs == [] {
    } else {
      CleanPartMeaning(decode, fs[1..]);
      var r := [fs[0]] + CleanPart(decode, fs[1..]);
      assert r[1..] == CleanPart(decode, fs[1..]) && fs == [fs[0]] + fs[1..];
    }
  }

  /** What takes effect can be taken in, and is all exactly when all can be taken in. */
  lemma KeptMeaning<M>(decode: Decoder<M>, fs: seq<WireFrame>)
    ensures Clean(decode, Kept(decode, fs)) && Kept(decode, fs) <= fs
    ensures Kept(decode, fs) == fs <==> Clean(decode, fs)
  {
    hide CleanPart, ChunksOf;
    NothingIsClean(decode);
    CleanPartMeaning(decode, fs);
    if Clean(decode, fs) {
      CleanFramesHaveChunks(decode, fs);
    }
  }

  lemma NothingIsClean<M>(decode: Decoder<M>)
    ensures Clean(decode, []) && ChunksOf([]) == Some([])
  {
  }

  /** The client after taking in frames. */
  function Took<M>(decode: Decoder<M>, c: Client<M>, fs: seq<WireFrame>, unread: Bytes): Client<M> {
    c.(state := StateAfter(fs, c.state), unread := unread, events := c.events + Delivered(decode, c.context, fs))
  }

  lemma TookUnread<M>(decode: Decoder<M>, c: Client<M>, fs: seq<WireFrame>, unread: Bytes)
    ensures Took(decode, c, fs, unread).unread == unread
  {
  }

  /** One call, for any bytes: what it adds, and when it throws. */
  lemma OnChunkMeaning<M>(decode: Decoder<M>, c: Client<M>, bytes: Bytes)
    ensures var h, b := OnChunk(decode, c, bytes), c.unread + bytes;
            && (h.threw <==> !Clean(decode, Seen(b)))
            && h.client == Took(decode, c, Kept(decode, Seen(b)), ParseOnce(b).unread)
            && (!h.threw ==> Kept(decode, Seen(b)) == Seen(b))
  {
    hide ParseOnce, HandleChunks, Clean, ChunksOf, Batch, Frames, CleanPart;
    var b := c.unread + bytes;
    ParseMeaning(b);
    KeptMeaning(decode, Seen(b));
    var d := c.(unread := ParseOnce(b).unread);
    NothingTaken(decode, d);
    if ChunksOf(Seen(b)).Some? {
      HandleChunksMeaning(decode, d, Seen(b));
    } else if Clean(decode, Seen(b)) {
      CleanFramesHaveChunks(decode, Seen(b));
    }
  }

  lemma {:induction false} CleanConcat<M>(decode: Decoder<M>, fs: seq<WireFrame>, gs: seq<WireFrame>)
    ensures Clean(decode, fs + gs) <==> Clean(decode, fs) && Clean(decode, gs)
  {
    hide CleanFrame;
    if fs == [] {
      assert fs + gs == gs;
    } else {
      assert (fs + gs)[1..] == fs[1..] + gs;
      CleanConcat(decode, fs[1..], gs);
    }
  }

  lemma {:induction false} DeliveredConcat<M>(
      decode: Decoder<M>, context: Option<Context>, fs: seq<WireFrame>, gs: seq<WireFrame>)
    ensures Delivered(decode, context, fs + gs) == Delivered(decode, context, fs) + Delivered(decode, context, gs)
  {
    hide FrameEvents;
    if fs == [] {
      assert fs + gs == gs;
    } else {
      assert (fs + gs)[1..] == fs[1..] + gs;
      DeliveredConcat(decode, context, fs[1..], gs);
    }
  }

  lemma {:induction false} StateAfterConcat(fs: seq<WireFrame>, gs: seq<WireFrame>, before: State)
    ensures StateAfter(fs + gs, before) == StateAfter(gs, StateAfter(fs, before))
    decreases fs
  {
    hide FrameState;
    if fs == [] {
      assert fs + gs == gs;
    } else {
      assert (fs + gs)[1..] == fs[1..] + gs;
      StateAfterConcat(fs[1..], gs, FrameState(fs[0], before));
    }
  }

  lemma TookTook<M>(decode: Decoder<M>, c: Client<M>, fs: seq<WireFrame>, gs: seq<WireFrame>, u: Bytes, v: Bytes)
    ensures Took(decode, Took(decode, c, fs, u), gs, v) == Took(decode, c, fs + gs, v)
  {
    hide Delivered, StateAfter;
    StateAfterConcat(fs, gs, c.state);
    DeliveredConcat(decode, c.context, fs, gs);
  }

  lemma {:induction false} NoTrailerNoChange(fs: seq<WireFrame>, before: State)
    requires !HasTrailer(fs)
    ensures StateAfter(fs, before) == before
    decreases fs
  {
    hide TrailerReading;
    if fs == [] {
    } else {
      assert forall i :: 0 <= i < |fs[1..]| ==> fs[1..][i] == fs[i + 1];
      NoTrailerNoChange(fs[1..], before);
    }
  }

  lemma {:induction false} TrailerEnds(fs: seq<WireFrame>, before: State)
    requires HasTrailer(fs) || before == TrailersReceived || before == HasError
    ensures StateAfter(fs, before) in {TrailersReceived, HasError}
    decreases fs
  {
    hide TrailerReading;
    if fs == [] {
    } else {
      assert fs == [fs[0]] + fs[1..];
      if !IsTrailer(fs[0]) && HasTrailer(fs) {
        HasTrailerConcat([fs[0]], fs[1..]);
      }
      TrailerEnds(fs[1..], FrameState(fs[0], before));
    }
  }

  // Replaying pieces: each call reads up to the first trailer of what it has

  /** The frames that one call per piece reads. */
  function Replayed(unread: Bytes, pieces: seq<Bytes>): seq<WireFrame>
    decreases pieces
  {
    if pieces == [] then []
    else
      var b := unread + pieces[0];
      Seen(b) + Replayed(ParseOnce(b).unread, pieces[1..])
  }

  /** The bytes these calls leave unread. */
  function LeftOver(unread: Bytes, pieces: seq<Bytes>): Bytes
    decreases pieces
  {
    if pieces == [] then unread else LeftOver(ParseOnce(unread + pieces[0]).unread, pieces[1..])
  }

  /** The frames that a replay reads after the first trailer: those of later pieces. */
  function LateFrames(pieces: seq<Bytes>): seq<WireFrame> {
    var fs := Replayed([], pieces);
    fs[|Batch(fs)|..]
  }

  /** The frames of a replay that take effect: it stops at the first call that throws. */
  function KeptInReplay<M>(decode: Decoder<M>, unread: Bytes, pieces: seq<Bytes>): seq<WireFrame>
    decreases pieces
  {
    if pieces == [] then []
    else
      var b := unread + pieces[0];
      Kept(decode, Seen(b))
      + if Clean(decode, Seen(b)) then KeptInReplay(decode, ParseOnce(b).unread, pieces[1..]) else []
  }

  /** The bytes that are unread where a replay stops. */
  function LeftInReplay<M>(decode: Decoder<M>, unread: Bytes, pieces: seq<Bytes>): Bytes
    decreases pieces
  {
    if pieces == [] then unread
    else
      var b := unread + pieces[0];
      if Clean(decode, Seen(b)) then LeftInReplay(decode, ParseOnce(b).unread, pieces[1..]) else ParseOnce(b).unread
  }

  /** A replay of any pieces: what it adds, and when it throws. */
  lemma {:induction false} OnChunksMeaning<M>(decode: Decoder<M>, c: Client<M>, pieces: seq<Bytes>)
    ensures var h := OnChunks(decode, c, pieces);
            && (h.threw <==> !Clean(decode, Replayed(c.unread, pieces)))
            && h.client
               == Took(decode, c, KeptInReplay(decode, c.unread, pieces), LeftInReplay(decode, c.unread, pieces))
    decreases pieces
  {
    hide ParseOnce, OnChunk, Seen, Delivered, StateAfter, Kept;
    if pieces == [] {
      NothingTaken(decode, c);
    } else {
      hide Clean;
      var b := c.unread + pieces[0];
      var h := OnChunk(decode, c, pieces[0]);
      OnChunkMeaning(decode, c, pieces[0]);
      CleanConcat(decode, Seen(b), Replayed(ParseOnce(b).unread, pieces[1..]));
      if h.threw {
        assert Kept(decode, Seen(b)) + [] == Kept(decode, Seen(b));
      } else {
        OnChunksMeaning(decode, h.client, pieces[1..]);
        TookTook(decode, c, Seen(b), KeptInReplay(decode, ParseOnce(b).unread, pieces[1..]),
                 ParseOnce(b).unread, LeftInReplay(decode, c.unread, pieces));
      }
    }
  }

  /** What takes effect in a replay can be taken in, and begins with all that is read before it throws. */
  lemma {:induction false} KeptInReplayMeaning<M>(decode: Decoder<M>, unread: Bytes, pieces: seq<Bytes>)
    ensures var kept, fs := KeptInReplay(decode, unread, pieces), Replayed(unread, pieces);
            && Clean(decode, kept) && kept <= fs
            && (Clean(decode, fs) ==>
                  kept == fs && LeftInReplay(decode, unread, pieces) == LeftOver(unread, pieces))
    decreases pieces
  {
    hide ParseOnce, Seen, Kept;
    if pieces == [] {
    } else {
      hide Clean;
      var b := unread + pieces[0];
      KeptMeaning(decode, Seen(b));
      KeptInReplayMeaning(decode, ParseOnce(b).unread, pieces[1..]);
      CleanConcat(decode, Seen(b), Replayed(ParseOnce(b).unread, pieces[1..]));
      CleanConcat(decode, Kept(decode, Seen(b)), KeptInReplay(decode, ParseOnce(b).unread, pieces[1..]));
      assert Kept(decode, Seen(b)) + [] == Kept(decode, Seen(b));
    }
  }

  /** The frames that take effect when pieces arrive at a stream that is ready: nothing after a trailer. */
  function KeptDirectly<M>(decode: Decoder<M>, unread: Bytes, pieces: seq<Bytes>): seq<WireFrame>
    decreases pieces
  {
    if pieces == [] then []
    else
      var b := unread + pieces[0];
      var kept := Kept(decode, Seen(b));
      kept + if HasTrailer(kept) then [] else KeptDirectly(decode, ParseOnce(b).unread, pieces[1..])
  }

  lemma {:induction false} KeptDirectlyIsClean<M>(decode: Decoder<M>, unread: Bytes, pieces: seq<Bytes>)
    ensures Clean(decode, KeptDirectly(decode, unread, pieces))
    decreases pieces
  {
    hide ParseOnce, Seen, Kept, HasTrailer;
    if pieces == [] {
    } else {
      hide Clean;
      var b := unread + pieces[0];
      KeptMeaning(decode, Seen(b));
      KeptDirectlyIsClean(decode, ParseOnce(b).unread, pieces[1..]);
      CleanConcat(decode, Kept(decode, Seen(b)), KeptDirectly(decode, ParseOnce(b).unread, pieces[1..]));
      assert Kept(decode, Seen(b)) + [] == Kept(decode, Seen(b));
    }
  }

  /** If the frames up to the first trailer can be taken in, they are what takes effect. */
  lemma {:induction false} KeptDirectlyMeaning<M>(decode: Decoder<M>, unread: Bytes, pieces: seq<Bytes>)
    requires !HasFrame(unread) && Clean(decode, Seen(unread + Flatten(pieces)))
    ensures KeptDirectly(decode, unread, pieces) == Seen(unread + Flatten(pieces))
    decreases pieces
  {
    hide ParseOnce, Clean, Frames, Tail, Batch, HasTrailer, Kept;
    if pieces == [] {
      assert unread + Flatten(pieces) == unread;
      FramesOfTail(unread);
      BatchWithoutTrailer([]);
    } else {
      var b, rest := unread + pieces[0], Flatten(pieces[1..]);
      assert unread + Flatten(pieces) == b + rest;
      FramesConcat(b, rest);
      BatchConcat(Frames(b), Frames(Tail(b) + rest));
      KeptMeaning(decode, Seen(b));
      BatchTwice(Frames(b));
      if HasTrailer(Frames(b)) {
        assert Seen(b) + [] == Seen(b);
      } else {
        ParseWithoutTrailer(b);
        BatchWithoutTrailer(Frames(b));
        CleanConcat(decode, Seen(b), Seen(Tail(b) + rest));
        KeptDirectlyMeaning(decode, Tail(b), pieces[1..]);
      }
    }
  }

  lemma NothingTaken<M>(decode: Decoder<M>, c: Client<M>)
    ensures Took(decode, c, [], c.unread) == c && Clean(decode, [])
  {
    assert c.events + [] == c.events;
  }

  lemma {:induction false} ReplayedConcat(unread: Bytes, a: seq<Bytes>, b: seq<Bytes>)
    ensures Replayed(unread, a + b) == Replayed(unread, a) + Replayed(LeftOver(unread, a), b)
    decreases a
  {
    hide ParseOnce, Seen;
    if a == [] {
      assert a + b == b;
    } else {
      assert (a + b)[1..] == a[1..] + b;
      ReplayedConcat(ParseOnce(unread + a[0]).unread, a[1..], b);
    }
  }

  lemma {:induction false} BatchTwice(fs: seq<WireFrame>)
    ensures Batch(Batch(fs)) == Batch(fs) && (HasTrailer(Batch(fs)) <==> HasTrailer(fs))
  {
    if fs == [] {
    } else {
      BatchTwice(fs[1..]);
      assert fs == [fs[0]] + fs[1..];
      HasTrailerConcat([fs[0]], fs[1..]);
      HasTrailerConcat([fs[0]], Batch(fs[1..]));
      assert HasTrailer([fs[0]]) <==> IsTrailer(fs[0]) by { assert [fs[0]][0] == fs[0]; }
      assert ([fs[0]] + Batch(fs[1..]))[1..] == Batch(fs[1..]);
    }
  }

  lemma FramesOfTail(b: Bytes)
    requires !HasFrame(b)
    ensures Frames(b) == [] && Tail(b) == b && !HasTrailer(Frames(b))
  {
  }

  /** Up to the first trailer, a replay reads the frames of the body, however it is cut. */
  lemma {:induction false} ReplayedSeen(unread: Bytes, pieces: seq<Bytes>)
    requires !HasFrame(unread)
    ensures var fs, body := Replayed(unread, pieces), unread + Flatten(pieces);
            && Batch(fs) == Seen(body)
            && (!HasTrailer(fs) ==> fs == Frames(body) && LeftOver(unread, pieces) == Tail(body))
    decreases pieces
  {
    hide ParseOnce, Frames, Tail, Batch, HasTrailer;
    if pieces == [] {
      assert unread + Flatten(pieces) == unread;
      FramesOfTail(unread);
      NoFrames();
      BatchWithoutTrailer([]);
    } else {
      var b, rest := unread + pieces[0], Flatten(pieces[1..]);
      var later := Replayed(ParseOnce(b).unread, pieces[1..]);
      assert unread + Flatten(pieces) == b + rest;
      FramesConcat(b, rest);
      BatchConcat(Frames(b), Frames(Tail(b) + rest));
      BatchConcat(Seen(b), later);
      HasTrailerConcat(Seen(b), later);
      BatchTwice(Frames(b));
      if !HasTrailer(Frames(b)) {
        ParseWithoutTrailer(b);
        BatchWithoutTrailer(Frames(b));
        ReplayedSeen(Tail(b), pieces[1..]);
      }
    }
  }

  /** The frames that are read when the headers settle after `k` pieces, if all can be taken in. */
  function Taken(pieces: seq<Bytes>, k: nat): seq<WireFrame>
    requires k <= |pieces| + 1
  {
    if k <= |pieces| then
      var fs := Replayed([], pieces[..k]);
      if HasTrailer(fs) then fs else Seen(Flatten(pieces))
    else Replayed([], pieces)
  }

  /** The pieces that wait when the headers settle. */
  function Waiting(pieces: seq<Bytes>, k: nat): seq<Bytes> {
    if k <= |pieces| then pieces[..k] else pieces
  }

  /** The frames that take effect once the replay is over: none if it met a trailer. */
  function KeptAfter<M>(decode: Decoder<M>, pieces: seq<Bytes>, k: nat): seq<WireFrame> {
    if k > |pieces| || HasTrailer(KeptInReplay(decode, [], pieces[..k])) then []
    else KeptDirectly(decode, LeftInReplay(decode, [], pieces[..k]), pieces[k..])
  }

  /** All the frames that take effect when the headers settle after `k` pieces. */
  function Reached<M>(decode: Decoder<M>, pieces: seq<Bytes>, k: nat): seq<WireFrame> {
    KeptInReplay(decode, [], Waiting(pieces, k)) + KeptAfter(decode, pieces, k)
  }

  predicate ReplayThrows<M>(decode: Decoder<M>, pieces: seq<Bytes>, k: nat) {
    !Clean(decode, Replayed([], Waiting(pieces, k)))
  }

  lemma ReachedIsClean<M>(decode: Decoder<M>, pieces: seq<Bytes>, k: nat)
    ensures Clean(decode, Reached(decode, pieces, k))
  {
    hide Clean, HasTrailer, KeptInReplay, LeftInReplay, KeptDirectly, Replayed;
    KeptInReplayMeaning(decode, [], Waiting(pieces, k));
    if k <= |pieces| {
      KeptDirectlyIsClean(decode, LeftInReplay(decode, [], pieces[..k]), pieces[k..]);
    }
    NothingIsClean(decode);
    CleanConcat(decode, KeptInReplay(decode, [], Waiting(pieces, k)), KeptAfter(decode, pieces, k));
  }

  /** When the frames read can be taken in, all of them take effect and the replay does not throw. */
  lemma ReachedIsTaken<M>(decode: Decoder<M>, pieces: seq<Bytes>, k: nat)
    requires k <= |pieces| + 1 && Clean(decode, Taken(pieces, k))
    ensures Reached(decode, pieces, k) == Taken(pieces, k) && !ReplayThrows(decode, pieces, k)
  {
    hide Clean, HasTrailer, KeptInReplay, LeftInReplay, LeftOver, KeptDirectly, Replayed, Batch, Frames, Tail, Flatten;
    if k <= |pieces| {
      var front, back := pieces[..k], pieces[k..];
      var fs := Replayed([], front);
      assert front + back == pieces;
      FlattenConcat(front, back);
      assert [] + Flatten(front) == Flatten(front);
      NoFrames();
      ReplayedSeen([], front);
      FramesConcat(Flatten(front), Flatten(back));
      BatchConcat(Frames(Flatten(front)), Frames(Tail(Flatten(front)) + Flatten(back)));
      if HasTrailer(fs) {
        KeptInReplayMeaning(decode, [], front);
        assert fs + [] == fs;
      } else {
        CleanConcat(decode, fs, Seen(Tail(Flatten(front)) + Flatten(back)));
        KeptInReplayMeaning(decode, [], front);
        KeptDirectlyMeaning(decode, Tail(Flatten(front)), back);
      }
    } else {
      KeptInReplayMeaning(decode, [], pieces);
      assert Replayed([], pieces) + [] == Replayed([], pieces);
    }
  }

  /**
   * No frame up to the first trailer is lost, for any pieces and at any moment, if and only if each
   * of them can be taken in.
   */
  lemma NothingLostIff<M>(decode: Decoder<M>, pieces: seq<Bytes>, k: nat)
    requires k <= |pieces| + 1
    ensures Seen(Flatten(pieces)) <= Reached(decode, pieces, k) <==> Clean(decode, Seen(Flatten(pieces)))
  {
    hide Clean, Reached, Seen, Flatten;
    var seen, reached := Seen(Flatten(pieces)), Reached(decode, pieces, k);
    ReachedIsClean(decode, pieces, k);
    if seen <= reached {
      CleanConcat(decode, seen, reached[|seen|..]);
      assert seen + reached[|seen|..] == reached;
    } else if Clean(decode, seen) {
      SeenIsKept(decode, pieces, k);
    }
  }

  lemma SeenIsKept<M>(decode: Decoder<M>, pieces: seq<Bytes>, k: nat)
    requires k <= |pieces| + 1 && Clean(decode, Seen(Flatten(pieces)))
    ensures Seen(Flatten(pieces)) <= Reached(decode, pieces, k)
  {
    hide Clean, HasTrailer, KeptInReplay, KeptAfter, Replayed, Seen, Flatten, Batch;
    if k <= |pieces| && !HasTrailer(Replayed([], Waiting(pieces, k))) {
      hide Reached;
      ReachedIsTaken(decode, pieces, k);
    } else {
      SeenWhileWaiting(pieces, k);
      KeptInReplaySeen(decode, [], Waiting(pieces, k));
    }
  }

  lemma SeenWhileWaiting(pieces: seq<Bytes>, k: nat)
    requires k > |pieces| || HasTrailer(Replayed([], Waiting(pieces, k)))
    ensures Batch(Replayed([], Waiting(pieces, k))) == Seen(Flatten(pieces))
  {
    hide HasTrailer, Replayed, Seen, Flatten, Batch, LeftOver;
    var waiting := Waiting(pieces, k);
    var back := pieces[|waiting|..];
    assert waiting + back == pieces;
    assert [] + Flatten(pieces) == Flatten(pieces);
    NoFrames();
    ReplayedSeen([], pieces);
    if k <= |pieces| {
      ReplayedConcat([], waiting, back);
      BatchConcat(Replayed([], waiting), Replayed(LeftOver([], waiting), back));
    }
  }

  /** A replay keeps the frames up to the first trailer it reads, if they can be taken in. */
  lemma {:induction false} KeptInReplaySeen<M>(decode: Decoder<M>, unread: Bytes, pieces: seq<Bytes>)
    requires Clean(decode, Batch(Replayed(unread, pieces)))
    ensures Batch(Replayed(unread, pieces)) <= KeptInReplay(decode, unread, pieces)
    decreases pieces
  {
    hide ParseOnce, Frames, Kept, HasTrailer;
    if pieces == [] {
    } else {
      hide Clean, Batch;
      var b := unread + pieces[0];
      var batch, rest := Seen(b), Replayed(ParseOnce(b).unread, pieces[1..]);
      KeptMeaning(decode, batch);
      BatchTwice(Frames(b));
      BatchConcat(batch, rest);
      if !HasTrailer(batch) {
        BatchWithoutTrailer(batch);
        CleanConcat(decode, batch, Batch(rest));
        KeptInReplaySeen(decode, ParseOnce(b).unread, pieces[1..]);
      }
    }
  }

  // The frames taken in: those up to the first trailer, and some of the late ones

  lemma TakenMeaning(pieces: seq<Bytes>, k: nat) returns (late: seq<WireFrame>)
    requires k <= |pieces| + 1
    ensures Taken(pieces, k) == Seen(Flatten(pieces)) + late && late <= LateFrames(pieces)
  {
    hide Seen, Batch, Flatten, HasTrailer, Replayed, LeftOver;
    var seen, all := Seen(Flatten(pieces)), Replayed([], pieces);
    assert [] + Flatten(pieces) == Flatten(pieces);
    NoFrames();
    ReplayedSeen([], pieces);
    assert seen <= all;
    if k <= |pieces| {
      var front, back := pieces[..k], pieces[k..];
      var fs := Replayed([], front);
      assert front + back == pieces;
      ReplayedConcat([], front, back);
      BatchConcat(fs, Replayed(LeftOver([], front), back));
      late := if HasTrailer(fs) then fs[|seen|..] else [];
    } else {
      late := LateFrames(pieces);
    }
  }

  lemma {:induction false} NothingReplayedLate(unread: Bytes, pieces: seq<Bytes>)
    requires !HasFrame(unread) && NothingAfterTrailer(unread, pieces)
    ensures Replayed(unread, pieces) == Seen(unread + Flatten(pieces))
    decreases pieces
  {
    hide ParseOnce, Frames, Tail, Batch, HasTrailer;
    if pieces == [] {
      assert unread + Flatten(pieces) == unread;
      FramesOfTail(unread);
      BatchWithoutTrailer([]);
    } else {
      var b, rest := unread + pieces[0], Flatten(pieces[1..]);
      assert unread + Flatten(pieces) == b + rest;
      if |pieces| == 1 {
        assert b + rest == b && Seen(b) + [] == Seen(b);
      } else {
        ParseWithoutTrailer(b);
        FramesConcat(b, rest);
        BatchConcat(Frames(b), Frames(Tail(b) + rest));
        BatchWithoutTrailer(Frames(b));
        NothingReplayedLate(Tail(b), pieces[1..]);
      }
    }
  }

  /** Some piece arrives after the first trailer is read. */
  predicate PieceFollows(unread: Bytes, pieces: seq<Bytes>)
    decreases pieces
  {
    && |pieces| > 1
    && var b := unread + pieces[0];
       HasTrailer(Seen(b)) || PieceFollows(ParseOnce(b).unread, pieces[1..])
  }

  lemma {:induction false} PieceFollowsMeaning(unread: Bytes, pieces: seq<Bytes>)
    requires !HasFrame(unread)
    ensures PieceFollows(unread, pieces) <==> !NothingAfterTrailer(unread, pieces)
    decreases pieces
  {
    hide ParseOnce, Frames, Tail, Batch, HasTrailer;
    if |pieces| <= 1 {
    } else {
      var b := unread + pieces[0];
      BatchTwice(Frames(b));
      if !HasTrailer(Frames(b)) {
        ParseWithoutTrailer(b);
        PieceFollowsMeaning(Tail(b), pieces[1..]);
      }
    }
  }

  lemma {:induction false} PieceFollowsConcat(unread: Bytes, a: seq<Bytes>, b: seq<Bytes>)
    requires b != []
    ensures PieceFollows(unread, a + b) <==> HasTrailer(Replayed(unread, a)) || PieceFollows(LeftOver(unread, a), b)
    decreases a
  {
    hide ParseOnce, Seen, HasTrailer;
    if a == [] {
      assert a + b == b;
      NoTrailerYet(unread);
    } else {
      assert (a + b)[1..] == a[1..] + b;
      var first := unread + a[0];
      PieceFollowsConcat(ParseOnce(first).unread, a[1..], b);
      HasTrailerConcat(Seen(first), Replayed(ParseOnce(first).unread, a[1..]));
    }
  }

  /** When no piece follows the first trailer, the same frames are taken in at every moment. */
  lemma TakenIsSeen(pieces: seq<Bytes>, k: nat)
    requires k <= |pieces| + 1 && NothingAfterTrailer([], pieces)
    ensures Taken(pieces, k) == Seen(Flatten(pieces)) && LateFrames(pieces) == []
  {
    hide Taken, Replayed, Seen, Flatten, NothingAfterTrailer, Batch;
    assert [] + Flatten(pieces) == Flatten(pieces);
    NoFrames();
    NothingReplayedLate([], pieces);
    ReplayedSeen([], pieces);
    var late := TakenMeaning(pieces, k);
    assert late == [] && Seen(Flatten(pieces)) + [] == Seen(Flatten(pieces));
  }

  /** Late frames are those a replay reads behind the first trailer; early headers never see them. */
  lemma LateNeedsTrailer(pieces: seq<Bytes>)
    ensures Replayed([], pieces) == Seen(Flatten(pieces)) + LateFrames(pieces)
    ensures LateFrames(pieces) != [] ==> HasTrailer(Seen(Flatten(pieces)))
    ensures Taken(pieces, 0) == Seen(Flatten(pieces))
  {
    hide Seen, Batch, Flatten, HasTrailer;
    assert [] + Flatten(pieces) == Flatten(pieces);
    NoFrames();
    ReplayedSeen([], pieces);
    var all := Replayed([], pieces);
    if !HasTrailer(all) {
      BatchWithoutTrailer(all);
    }
    BatchTwice(all);
    assert pieces[..0] == [];
    assert !HasTrailer(Replayed([], [])) by { NoTrailerYet([]); }
  }

  lemma NoTrailerYet(unread: Bytes)
    ensures !HasTrailer(Replayed(unread, []))
  {
  }
}
