/** What an observer of the client stream sees over whole runs of transport callbacks. */
module ClientRuns {
  import opened Wrappers
  import opened Wire
  import opened GrpcErrors
  import opened ChunkParsing
  import opened Streams
  import opened GrpcWebClient
  import opened ClientFrames

  // Runs of inputs

  function PieceInputs(pieces: seq<Bytes>): seq<Input> {
    if pieces == [] then [] else [Piece(pieces[0])] + PieceInputs(pieces[1..])
  }

  lemma {:induction false} RunConcat<M>(decode: Decoder<M>, c: Client<M>, a: seq<Input>, b: seq<Input>)
    ensures Run(decode, c, a + b) == Run(decode, Run(decode, c, a), b)
    decreases a
  {
    hide Step;
    if a == [] {
      assert a + b == b;
    } else {
      assert (a + b)[1..] == a[1..] + b;
      RunConcat(decode, Step(decode, c, a[0]), a[1..], b);
    }
  }

  lemma RunOne<M>(decode: Decoder<M>, c: Client<M>, input: Input)
    ensures Run(decode, c, [input]) == Step(decode, c, input)
  {
    hide Step;
    assert [input][1..] == [];
  }

  /** Pieces that arrive before the headers are decoded wait in arrival order. */
  lemma {:induction false} PiecesWait<M>(decode: Decoder<M>, c: Client<M>, pieces: seq<Bytes>)
    requires c.state == Started
    ensures Run(decode, c, PieceInputs(pieces)) == c.(pending := c.pending + pieces)
    decreases pieces
  {
    hide OnChunk;
    if pieces == [] {
      assert c.pending + pieces == c.pending;
    } else {
      PiecesWait(decode, c.(pending := c.pending + [pieces[0]]), pieces[1..]);
      assert c.pending + [pieces[0]] + pieces[1..] == c.pending + pieces;
      assert PieceInputs(pieces)[1..] == PieceInputs(pieces[1..]);
    }
  }

  /** Pieces that arrive after the trailer leave the stream alone. */
  lemma {:induction false} PiecesIgnored<M>(decode: Decoder<M>, c: Client<M>, pieces: seq<Bytes>)
    requires c.state == TrailersReceived || c.state == HasError
    ensures Run(decode, c, PieceInputs(pieces)) == c
    decreases pieces
  {
    hide OnChunk;
    if pieces == [] {
    } else {
      assert PieceInputs(pieces)[1..] == PieceInputs(pieces[1..]);
      PiecesIgnored(decode, c, pieces[1..]);
    }
  }

  /** Pieces that arrive once the stream is ready take effect up to the first trailer taken in. */
  lemma {:induction false} PiecesDirect<M>(decode: Decoder<M>, c: Client<M>, pieces: seq<Bytes>)
    requires c.state == IsReady
    ensures var d := Run(decode, c, PieceInputs(pieces));
            d == Took(decode, c, KeptDirectly(decode, c.unread, pieces), d.unread)
    decreases pieces
  {
    hide ParseOnce, OnChunk, Seen, HasTrailer, Delivered, StateAfter, Kept;
    if pieces == [] {
      NothingTaken(decode, c);
    } else {
      var b := c.unread + pieces[0];
      var kept, h := Kept(decode, Seen(b)), OnChunk(decode, c, pieces[0]);
      assert PieceInputs(pieces)[1..] == PieceInputs(pieces[1..]);
      assert Step(decode, c, Piece(pieces[0])) == h.client;
      OnChunkMeaning(decode, c, pieces[0]);
      if HasTrailer(kept) {
        TrailerEnds(kept, IsReady);
        PiecesIgnored(decode, h.client, pieces[1..]);
        assert kept + [] == kept;
      } else {
        NoTrailerNoChange(kept, IsReady);
        PiecesDirect(decode, h.client, pieces[1..]);
        TookTook(decode, c, kept, KeptDirectly(decode, ParseOnce(b).unread, pieces[1..]),
                 ParseOnce(b).unread, Run(decode, c, PieceInputs(pieces)).unread);
      }
    }
  }

  // Timelines: all the moments at which the decoding of the headers may settle

  /** The stream once the transport is started and the request is sent. */
  function StartedClient<M>(): Client<M> {
    NewClient().(state := Started)
  }

  lemma Connecting<M>(decode: Decoder<M>)
    ensures Run(decode, NewClient(), [Start(None), Connected]) == StartedClient()
  {
    hide OnHeadersSettled, OnChunk, OnEnd;
    assert [Start(None), Connected][1..] == [Connected];
    RunOne(decode, Step(decode, NewClient(), Start(None)), Connected);
  }

  /** The headers settle after `k` pieces, or after the end of the transport when `k == |pieces| + 1`. */
  function Timeline(pieces: seq<Bytes>, k: nat, outcome: HeaderOutcome, end: Option<TransportError>): seq<Input>
    requires k <= |pieces| + 1
  {
    if k <= |pieces|
    then PieceInputs(pieces[..k]) + ([HeadersSettled(outcome)] + (PieceInputs(pieces[k..]) + [End(end)]))
    else PieceInputs(pieces) + ([End(end)] + [HeadersSettled(outcome)])
  }

  function Observe<M>(
      decode: Decoder<M>, pieces: seq<Bytes>, k: nat, outcome: HeaderOutcome,
      end: Option<TransportError>): seq<ClientEvent<M>>
    requires k <= |pieces| + 1
  {
    Run(decode, StartedClient(), Timeline(pieces, k, outcome, end)).events
  }

  /** The client at the moment it becomes ready, with some pieces waiting. */
  function ReadyClient<M>(context: Context, waiting: seq<Bytes>): Client<M> {
    Client(IsReady, false, Some(context), false, waiting, [], [Ready])
  }

  /** The events until the transport ends: of the replay, of its exception, of the pieces that follow. */
  function EventsBeforeEnd<M>(
      decode: Decoder<M>, context: Context, pieces: seq<Bytes>, k: nat): seq<ClientEvent<M>>
  {
    [Ready] + Delivered(decode, Some(context), KeptInReplay(decode, [], Waiting(pieces, k)))
    + (if ReplayThrows(decode, pieces, k) then [Error(Exception)] else [])
    + Delivered(decode, Some(context), KeptAfter(decode, pieces, k))
  }

  /** All the events: what ends a transport before the headers are decoded is reported after the replay, or at once. */
  function EventsAt<M>(
      decode: Decoder<M>, context: Context, pieces: seq<Bytes>, k: nat,
      end: Option<TransportError>): seq<ClientEvent<M>>
  {
    if k > |pieces| && end.Some? then [Error(ErrorOfTransport(end.value))]
    else
      EventsBeforeEnd(decode, context, pieces, k)
      + if k > |pieces| && ReplayThrows(decode, pieces, k) then []
        else Ending(StateAfter(Reached(decode, pieces, k), IsReady), end)
  }

  /** The client when the headers have settled after `k` pieces and the replay is over. */
  function AfterReplay<M>(decode: Decoder<M>, context: Context, pieces: seq<Bytes>, k: nat): Client<M> {
    var front := Waiting(pieces, k);
    var ready: Client<M> := ReadyClient(context, front);
    var c := Took(decode, ready, KeptInReplay(decode, [], front), LeftInReplay(decode, [], front));
    c.(events := c.events + if ReplayThrows(decode, pieces, k) then [Error(Exception)] else [])
  }

  lemma SettleMeaning<M>(decode: Decoder<M>, context: Context, pieces: seq<Bytes>, k: nat)
    requires k <= |pieces|
    ensures Step(decode, StartedClient<M>().(pending := pieces[..k]), HeadersSettled(Decoded(context)))
         == AfterReplay(decode, context, pieces, k)
  {
    hide OnChunks, Replayed, KeptInReplay, LeftInReplay, Clean, Emit;
    var front := pieces[..k];
    var ready := ReadyClient<M>(context, front);
    OnChunksMeaning(decode, ready, front);
    SettleStarted(decode, StartedClient<M>().(pending := front), context);
    var h := OnChunks(decode, ready, front);
    EmitMaybe(h.client, h.threw);
    assert h.threw <==> ReplayThrows(decode, pieces, k);
    assert h.client == Took(decode, ready, KeptInReplay(decode, [], front), LeftInReplay(decode, [], front));
  }

  /** The headers settle after `k` pieces: the replay and the pieces that follow it. */
  lemma ReadyThenPieces<M>(decode: Decoder<M>, context: Context, pieces: seq<Bytes>, k: nat)
    requires k <= |pieces|
    ensures var c: Client<M> := StartedClient().(pending := pieces[..k]);
            var d := Run(decode, Step(decode, c, HeadersSettled(Decoded(context))), PieceInputs(pieces[k..]));
            && d.events == EventsBeforeEnd(decode, context, pieces, k)
            && d.state == StateAfter(Reached(decode, pieces, k), IsReady)
  {
    hide Delivered, StateAfter, HasTrailer, Replayed, KeptInReplay, LeftInReplay, KeptDirectly, ReplayThrows;
    var back, fs := pieces[k..], KeptInReplay(decode, [], pieces[..k]);
    SettleMeaning(decode, context, pieces, k);
    var settled := AfterReplay<M>(decode, context, pieces, k);
    StateAfterConcat(fs, KeptAfter(decode, pieces, k), IsReady);
    if HasTrailer(fs) {
      TrailerEnds(fs, IsReady);
      PiecesIgnored(decode, settled, back);
      NothingDelivered(decode, Some(context), StateAfter(fs, IsReady));
      assert settled.events + [] == settled.events;
    } else {
      NoTrailerNoChange(fs, IsReady);
      PiecesDirect(decode, settled, back);
    }
  }

  lemma NothingDelivered<M>(decode: Decoder<M>, context: Option<Context>, state: State)
    ensures Delivered(decode, context, []) == [] && StateAfter([], state) == state
  {
  }

  lemma EmitMaybe<M>(c: Client<M>, threw: bool)
    ensures (if threw then Emit(c, Error(Exception)) else c)
         == c.(events := c.events + if threw then [Error(Exception)] else [])
  {
    assert c.events + [] == c.events;
  }

  lemma SettleStarted<M>(decode: Decoder<M>, c: Client<M>, context: Context)
    requires c.state == Started && c.context == None && !c.awaiting && !c.transportCanceled
    requires c.unread == [] && c.events == []
    ensures var h := OnChunks(decode, ReadyClient(context, c.pending), c.pending);
            Step(decode, c, HeadersSettled(Decoded(context)))
            == if h.threw then Emit(h.client, Error(Exception)) else h.client
  {
    hide OnChunks;
    ReadyFrom(c, context);
  }

  lemma SettleEnded<M>(decode: Decoder<M>, c: Client<M>, context: Context)
    requires c.state == EndedBeforeReady && c.context == None && !c.awaiting && !c.transportCanceled
    requires c.unread == [] && c.events == []
    ensures var h := OnChunks(decode, ReadyClient(context, c.pending), c.pending);
            OnHeadersSettled(decode, c, Decoded(context))
            == if h.threw then Emit(h.client, Error(Exception)) else Finish(h.client)
  {
    hide OnChunks;
    ReadyFrom(c, context);
  }

  lemma ReadyFrom<M>(c: Client<M>, context: Context)
    requires c.context == None && !c.awaiting && !c.transportCanceled && c.unread == [] && c.events == []
    ensures Emit(c.(context := Some(context), state := IsReady), Ready) == ReadyClient(context, c.pending)
  {
    assert c.events + [Ready] == [Ready];
  }

  /** `end()` adds what the reference says, whatever the stream has seen. */
  lemma EndAfterBody<M>(c: Client<M>, fs: seq<WireFrame>, end: Option<TransportError>)
    requires c.state == StateAfter(fs, IsReady)
    ensures OnEnd(c, end).events == c.events + Ending(c.state, end) && (end == None ==> Finish(c) == OnEnd(c, end))
  {
    hide ErrorOfTransport;
    StatesAfter(fs, IsReady);
    assert c.events + [] == c.events;
  }

  lemma {:induction false} StatesAfter(fs: seq<WireFrame>, before: State)
    requires before in {IsReady, TrailersReceived, HasError}
    ensures StateAfter(fs, before) in {IsReady, TrailersReceived, HasError}
    decreases fs
  {
    hide TrailerReading;
    if fs == [] {
    } else {
      StatesAfter(fs[1..], FrameState(fs[0], before));
    }
  }

  /** The headers settle before the end of the transport, however it ends. */
  lemma HeadersInTime<M>(decode: Decoder<M>, context: Context, pieces: seq<Bytes>, k: nat, end: Option<TransportError>)
    requires k <= |pieces|
    ensures Observe(decode, pieces, k, Decoded(context), end) == EventsAt(decode, context, pieces, k, end)
  {
    hide Step, Reached, EventsBeforeEnd, StateAfter, Ending, PieceInputs;
    var c0 := StartedClient<M>();
    var c1 := c0.(pending := pieces[..k]);
    var settle := HeadersSettled(Decoded(context));
    PiecesWait(decode, c0, pieces[..k]);
    assert c0.pending + pieces[..k] == pieces[..k];
    RunConcat(decode, c0, PieceInputs(pieces[..k]), [settle] + (PieceInputs(pieces[k..]) + [End(end)]));
    RunConcat(decode, c1, [settle], PieceInputs(pieces[k..]) + [End(end)]);
    RunOne(decode, c1, settle);
    var c2 := Step(decode, c1, settle);
    RunConcat(decode, c2, PieceInputs(pieces[k..]), [End(end)]);
    ReadyThenPieces(decode, context, pieces, k);
    var c3 := Run(decode, c2, PieceInputs(pieces[k..]));
    RunOne(decode, c3, End(end));
    assert Step(decode, c3, End(end)) == OnEnd(c3, end) by {
      StepEnd(decode, c3, end);
    }
    EndAfterBody(c3, Reached(decode, pieces, k), end);
  }

  lemma StepEnd<M>(decode: Decoder<M>, c: Client<M>, end: Option<TransportError>)
    ensures Step(decode, c, End(end)) == OnEnd(c, end)
  {
  }

  /** The stream once all pieces wait and the transport has ended, before the headers settle. */
  lemma HeadersAfterEnd<M>(decode: Decoder<M>, pieces: seq<Bytes>, outcome: HeaderOutcome, end: Option<TransportError>)
    ensures var c: Client<M> := OnEnd(StartedClient().(pending := pieces), end);
            Observe(decode, pieces, |pieces| + 1, outcome, end) == OnHeadersSettled(decode, c, outcome).events
  {
    hide OnHeadersSettled, OnEnd, OnChunk, PieceInputs;
    var c0 := StartedClient<M>();
    var c1 := c0.(pending := pieces);
    PiecesWait(decode, c0, pieces);
    assert c0.pending + pieces == pieces;
    RunConcat(decode, c0, PieceInputs(pieces), [End(end)] + [HeadersSettled(outcome)]);
    RunConcat(decode, c1, [End(end)], [HeadersSettled(outcome)]);
    RunOne(decode, c1, End(end));
    RunOne(decode, OnEnd(c1, end), HeadersSettled(outcome));
  }

  /** A transport that fails before the headers are decoded hides the whole response. */
  lemma FailureBeforeHeaders<M>(decode: Decoder<M>, context: Context, pieces: seq<Bytes>, failure: TransportError)
    ensures Observe(decode, pieces, |pieces| + 1, Decoded(context), Some(failure)) == [Error(ErrorOfTransport(failure))]
    ensures ErrorOfTransport(failure) ==
            if failure.code == "ECONNREFUSED" then RpcError(Unavailable, Some(failure.text), None)
            else TransportFailure(failure)
  {
    hide GetReady;
    HeadersAfterEnd(decode, pieces, Decoded(context), Some(failure));
  }

  /**
   * What is observed, for any pieces, at every moment of header decoding and for every end of the
   * transport: the events of the frames that take effect, with the exception of a replay that throws.
   */
  lemma ObserveMeaning<M>(decode: Decoder<M>, context: Context, pieces: seq<Bytes>, k: nat, end: Option<TransportError>)
    requires k <= |pieces| + 1
    ensures Observe(decode, pieces, k, Decoded(context), end) == EventsAt(decode, context, pieces, k, end)
  {
    if k <= |pieces| {
      HeadersInTime(decode, context, pieces, k, end);
    } else if end.Some? {
      FailureBeforeHeaders(decode, context, pieces, end.value);
    } else {
      hide OnChunks, OnHeadersSettled, Finish, Observe, KeptInReplay, LeftInReplay, Clean, Replayed, StateAfter;
      hide Ending, Delivered;
      var ready, fs := ReadyClient<M>(context, pieces), KeptInReplay(decode, [], pieces);
      HeadersAfterEnd(decode, pieces, Decoded(context), None);
      SettleEnded(decode, OnEnd(StartedClient().(pending := pieces), None), context);
      OnChunksMeaning(decode, ready, pieces);
      var h := OnChunks(decode, ready, pieces);
      NothingDelivered(decode, Some(context), IsReady);
      assert fs + [] == fs;
      EndAfterBody(h.client, fs, None);
    }
  }

  /** When all frames read can be taken in, the events are those of these frames. */
  lemma EventsWhenClean<M>(
      decode: Decoder<M>, context: Context, pieces: seq<Bytes>, k: nat, end: Option<TransportError>)
    requires k <= |pieces| + 1 && Clean(decode, Taken(pieces, k)) && (k <= |pieces| || end == None)
    ensures EventsAt(decode, context, pieces, k, end) == Told(decode, context, Taken(pieces, k), end)
  {
    hide Clean, Taken, ReplayThrows, KeptInReplay, KeptAfter, StateAfter, Ending, Delivered;
    ReachedIsTaken(decode, pieces, k);
    var replayed, after := KeptInReplay(decode, [], Waiting(pieces, k)), KeptAfter(decode, pieces, k);
    DeliveredConcat(decode, Some(context), replayed, after);
    assert [Ready] + Delivered(decode, Some(context), replayed) + [] + Delivered(decode, Some(context), after)
        == [Ready] + Delivered(decode, Some(context), Taken(pieces, k));
  }

  /** The headers settle before the end of the transport, however it ends. */
  lemma HeadersBeforeEnd<M>(
      decode: Decoder<M>, context: Context, pieces: seq<Bytes>, k: nat, end: Option<TransportError>)
    requires k <= |pieces| && Clean(decode, Taken(pieces, k))
    ensures Observe(decode, pieces, k, Decoded(context), end) == Told(decode, context, Taken(pieces, k), end)
  {
    hide Observe, Clean, Taken, EventsAt, Told;
    ObserveMeaning(decode, context, pieces, k, end);
    EventsWhenClean(decode, context, pieces, k, end);
  }

  /** The same at every moment, when the transport ends without an error. */
  lemma MomentMeaning<M>(decode: Decoder<M>, context: Context, pieces: seq<Bytes>, k: nat)
    requires k <= |pieces| + 1 && Clean(decode, Taken(pieces, k))
    ensures Observe(decode, pieces, k, Decoded(context), None) == Told(decode, context, Taken(pieces, k), None)
  {
    hide Observe, Clean, Taken, EventsAt, Told;
    ObserveMeaning(decode, context, pieces, k, None);
    EventsWhenClean(decode, context, pieces, k, None);
  }

  /**
   * Timing independence: for every body, complete or truncated, that the client can take in,
   * cut into any pieces none of which follows the first trailer, the events are those of the
   * reference, whenever the header decoding succeeds.
   */
  lemma TimingIndependence<M>(decode: Decoder<M>, context: Context, pieces: seq<Bytes>, k: nat)
    requires k <= |pieces| + 1 && NothingAfterTrailer([], pieces)
    requires Clean(decode, Seen(Flatten(pieces)))
    ensures Observe(decode, pieces, k, Decoded(context), None) == Reference(decode, context, Flatten(pieces), None)
  {
    hide Observe, Told, Taken, Seen, Flatten, NothingAfterTrailer, Clean;
    TakenIsSeen(pieces, k);
    MomentMeaning(decode, context, pieces, k);
  }

  // Truncated bodies and failed headers

  lemma {:induction false} NoTrailerNothingAfter(unread: Bytes, pieces: seq<Bytes>)
    requires !HasFrame(unread) && !HasTrailer(Frames(unread + Flatten(pieces)))
    ensures NothingAfterTrailer(unread, pieces)
    decreases pieces
  {
    hide Frames, Tail, HasTrailer;
    if |pieces| <= 1 {
    } else {
      var b, rest := unread + pieces[0], Flatten(pieces[1..]);
      assert unread + Flatten(pieces) == b + rest;
      FramesConcat(b, rest);
      HasTrailerConcat(Frames(b), Frames(Tail(b) + rest));
      NoTrailerNothingAfter(Tail(b), pieces[1..]);
    }
  }

  lemma {:induction false} CleanPrefix<M>(decode: Decoder<M>, fs: seq<WireFrame>, gs: seq<WireFrame>)
    requires fs <= gs && Clean(decode, gs)
    ensures Clean(decode, fs)
  {
    hide CleanFrame;
    CleanConcat(decode, fs, gs[|fs|..]);
    assert fs + gs[|fs|..] == gs;
  }

  lemma {:induction false} DeliveredMessages<M>(decode: Decoder<M>, context: Option<Context>, fs: seq<WireFrame>)
    requires !HasTrailer(fs)
    ensures forall e :: e in Delivered(decode, context, fs) ==> e.Message?
  {
    hide TrailerReading;
    if fs == [] {
    } else {
      assert forall i :: 0 <= i < |fs[1..]| ==> fs[1..][i] == fs[i + 1];
      DeliveredMessages(decode, context, fs[1..]);
    }
  }

  /**
   * Truncation safety: a transport that ends cleanly anywhere inside a well-formed body yields
   * `ready`, the messages of exactly the complete frames, and one unavailable error; never
   * `complete`. This holds for every split and every moment of header decoding.
   */
  lemma TruncationSafety<M>(
      decode: Decoder<M>, context: Context, messages: seq<WireFrame>, trailer: WireFrame, n: nat,
      pieces: seq<Bytes>, k: nat)
    requires !HasTrailer(messages) && Clean(decode, messages)
    requires n < |Encode(messages + [trailer])| && Flatten(pieces) == Encode(messages + [trailer])[..n]
    requires k <= |pieces| + 1
    ensures var events := Observe(decode, pieces, k, Decoded(context), None);
            var received := Frames(Flatten(pieces));
            && received <= messages
            && events
               == [Ready] + Delivered(decode, Some(context), received) + [Error(RpcError(Unavailable, None, None))]
            && Complete !in events
  {
    hide Encode, Flatten, Frames, Clean, Delivered, StateAfter, Observe, NothingAfterTrailer, Batch;
    var all, body := messages + [trailer], Flatten(pieces);
    FramesOfPrefix(all, n);
    var received := Frames(body);
    assert received <= messages;
    assert received == messages[..|received|];
    assert !HasTrailer(received) by {
      assert forall i :: 0 <= i < |received| ==> received[i] == messages[i];
    }
    CleanPrefix(decode, received, messages);
    BatchWithoutTrailer(received);
    assert [] + body == body;
    NoFrames();
    NoTrailerNothingAfter([], pieces);
    NoTrailerNoChange(received, IsReady);
    DeliveredMessages(decode, Some(context), received);
    TimingIndependence(decode, context, pieces, k);
  }

  function FailureOfEnd<M>(end: Option<TransportError>): seq<ClientEvent<M>> {
    if end.Some? then [Error(ErrorOfTransport(end.value))] else []
  }

  /**
   * A failure found in the headers is reported, and no more than that: the one other event is the
   * error of a transport that fails, and it comes first if the transport ended first.
   */
  lemma HeaderFailureReported<M>(
      decode: Decoder<M>, outcome: HeaderOutcome, pieces: seq<Bytes>, k: nat, end: Option<TransportError>)
    requires k <= |pieces| + 1 && !outcome.Decoded?
    ensures Observe(decode, pieces, k, outcome, end) ==
            if k <= |pieces| then [Error(outcome.error)] + FailureOfEnd(end)
            else FailureOfEnd(end) + [Error(outcome.error)]
  {
    hide PieceInputs, OnChunk, ErrorOfTransport;
    var c0 := StartedClient<M>();
    if k == |pieces| + 1 {
      HeadersAfterEnd(decode, pieces, outcome, end);
      assert c0.events + [Error(outcome.error)] == [Error(outcome.error)];
    } else {
      hide Step;
      var settle, c1 := HeadersSettled(outcome), c0.(pending := pieces[..k]);
      PiecesWait(decode, c0, pieces[..k]);
      assert c0.pending + pieces[..k] == pieces[..k];
      RunConcat(decode, c0, PieceInputs(pieces[..k]), [settle] + (PieceInputs(pieces[k..]) + [End(end)]));
      RunConcat(decode, c1, [settle], PieceInputs(pieces[k..]) + [End(end)]);
      RunOne(decode, c1, settle);
      var c2 := OnHeadersSettled(decode, c1, outcome);
      StepSettle(decode, c1, outcome);
      assert c2.events == [Error(outcome.error)] && c2.state == Started;
      RunConcat(decode, c2, PieceInputs(pieces[k..]), [End(end)]);
      PiecesWait(decode, c2, pieces[k..]);
      var c3 := c2.(pending := c2.pending + pieces[k..]);
      RunOne(decode, c3, End(end));
      StepEnd(decode, c3, end);
    }
  }

  lemma StepSettle<M>(decode: Decoder<M>, c: Client<M>, outcome: HeaderOutcome)
    ensures Step(decode, c, HeadersSettled(outcome)) == OnHeadersSettled(decode, c, outcome)
  {
  }
}
