/** End to end: what a handler does on the server is what the client observes. */
module Delivery {
  import opened Wrappers
  import opened Wire
  import opened HeaderValues
  import opened Metadata
  import opened GrpcErrors
  import opened ChunkParsing
  import opened Streams
  import opened GrpcWebClient
  import opened ClientFrames
  import opened ClientRuns
  import Server = GrpcWebServer
  import Promises

  /** Decoding gives back every message that can be encoded. */
  ghost predicate Inverse<M(!new)>(encode: Server.Encoder<M>, decode: Decoder<M>) {
    forall m, payload :: encode(m) == Ok(payload) ==> decode(payload) == Some(m)
  }

  function MessageEvents<M>(ms: seq<M>, context: Context): seq<ClientEvent<M>> {
    if ms == [] then [] else [Message(Response(ms[0], Some(context)))] + MessageEvents(ms[1..], context)
  }

  /**
   * The client's view of the end of a stream: an RPC error keeps its type and its transmitted
   * message, and any other error is an internal one without a message.
   */
  function EndEvent<M>(failure: Option<HandlerError>, context: Context): ClientEvent<M> {
    match failure
    case None => Complete
    case Some(ServerRpcError(t, _, transmitted)) => Error(RpcError(t, Some(TextOf(transmitted)), Some(context)))
    case Some(OtherError(_)) => Error(RpcError(Internal, Some(""), Some(context)))
  }

  /** Other headers of the response: decodable, and not those of a gRPC error. */
  predicate PlainHeaders(hs: Headers) {
    forall h :: h in hs ==> h.key != GRPC_STATUS && h.key != GRPC_MESSAGE && DecodeAll(h.values).Some?
  }

  lemma {:induction false} PlainHeadersHaveNoStatus(hs: Headers)
    requires PlainHeaders(hs)
    ensures Get(hs, GRPC_STATUS) == []
  {
    if hs == [] {
    } else {
      assert hs[0] in hs && forall h :: h in hs[1..] ==> h in hs;
      PlainHeadersHaveNoStatus(hs[1..]);
    }
  }

  /** Plain headers are those of a response that can be read exactly when the HTTP status is 200. */
  lemma PlainHeadersOutcome(hs: Headers, status: int, context: Context, decode: Headers -> Option<Context>)
    requires PlainHeaders(hs) && decode(hs) == Some(context)
    ensures ReadHeaders(hs, status, decode) == Decoded(context) <==> status == 200
    ensures status != 200 ==>
              ReadHeaders(hs, status, decode) == HeaderFailure(HttpStatusError(status, Some(context)))
  {
    hide ReadHeaders, DecodeAll;
    PlainHeadersHaveNoStatus(hs);
    HeadersMeaning(hs, status, decode);
  }

  lemma {:induction false} MessageFramesAreClean<M(!new)>(
      encode: Server.Encoder<M>, decode: Decoder<M>, context: Context, ms: seq<M>)
    requires Inverse(encode, decode) && Server.Sendable(encode, ms)
    ensures var fs := Server.MessageFrames(encode, ms);
            && !HasTrailer(fs) && Clean(decode, fs)
            && Delivered(decode, Some(context), fs) == MessageEvents(ms, context)
  {
    hide TrailerReading;
    if ms == [] {
    } else {
      MessageFramesAreClean(encode, decode, context, ms[1..]);
      var f, rest := Server.MessageFrame(encode, ms[0]), Server.MessageFrames(encode, ms[1..]);
      assert Server.MessageFrames(encode, ms)[1..] == rest;
      assert !IsTrailer(f) && decode(f.payload) == Some(ms[0]);
      HasTrailerConcat([f], rest);
    }
  }

  lemma TrailerFrameReading(failure: Option<HandlerError>)
    requires Server.Fits(failure)
    ensures var f := Server.TrailerFrame(failure);
            && IsTrailer(f)
            && TrailerReading(f.payload)
               == if failure.Some? then Failed(ToldError(failure.value)) else NoError
  {
    hide ParseTrailer, ErrorFromMetadata, TrailerPayload, MetadataOf;
    match failure
    case None =>
      Server.NoTrailerText();
      EmptyTrailer();
    case Some(e) =>
      ErrorTrailerRoundTrip(ErrorToSend(e));
      TransmittedError(e);
  }

  /** Messages and a trailer, as the client sees them. */
  lemma WellFormedBody<M>(decode: Decoder<M>, context: Context, fs: seq<WireFrame>, trailer: WireFrame)
    requires !HasTrailer(fs) && Clean(decode, fs) && IsTrailer(trailer) && TrailerReading(trailer.payload) != BadMessage
    ensures var body := Encode(fs + [trailer]);
            && Frames(body) == fs + [trailer] && Seen(body) == fs + [trailer]
            && Clean(decode, Seen(body))
            && Reference(decode, context, body, None)
               == [Ready] + Delivered(decode, Some(context), fs)
                  + if TrailerReading(trailer.payload) == NoError then [Complete]
                    else FrameEvents(decode, Some(context), trailer)
  {
    hide Encode, Frames, Batch, HasTrailer, TrailerReading, Clean, Delivered, StateAfter, FrameEvents;
    var body := Encode(fs + [trailer]);
    OneTrailer(decode, context, trailer);
    assert body + [] == body;
    NoFrames();
    DecodeEncode(fs + [trailer], []);
    BatchConcat(fs, [trailer]);
    BatchOfTrailer(trailer);
    CleanConcat(decode, fs, [trailer]);
    DeliveredConcat(decode, Some(context), fs, [trailer]);
    NoTrailerNoChange(fs, IsReady);
    StateAfterConcat(fs, [trailer], IsReady);
  }

  lemma OneTrailer<M>(decode: Decoder<M>, context: Context, trailer: WireFrame)
    requires IsTrailer(trailer) && TrailerReading(trailer.payload) != BadMessage
    ensures Clean(decode, [trailer])
    ensures var reading, state := TrailerReading(trailer.payload), StateAfter([trailer], IsReady);
            Delivered(decode, Some(context), [trailer]) + Ending(state, None)
            == if reading == NoError then [Complete] else FrameEvents(decode, Some(context), trailer)
  {
    hide TrailerReading;
    assert [trailer][1..] == [];
    var events := FrameEvents(decode, Some(context), trailer);
    assert events + [] == events;
  }

  lemma BatchOfTrailer(f: WireFrame)
    requires IsTrailer(f)
    ensures Batch([f]) == [f]
  {
  }

  /**
   * A trailer that states a status whose number is 0 is a success: messages and such a trailer are
   * observed as `ready`, the messages, `complete`, for every split and every moment.
   */
  lemma OkStatusCompletes<M>(
      decode: Decoder<M>, context: Context, fs: seq<WireFrame>, status: string, pieces: seq<Bytes>, k: nat)
    requires !HasTrailer(fs) && Clean(decode, fs)
    requires IsVisible(status) && ParseInt(status) == Some(0)
    requires var payload := TrailerPayload([Header("grpc-status", [status])]);
             && |payload| < U32_LIMIT
             && Flatten(pieces) == Encode(fs + [Frame(0x80, payload)])
    requires k <= |pieces| + 1 && forall p :: p in pieces ==> p != []
    ensures Observe(decode, pieces, k, Decoded(context), None)
         == [Ready] + Delivered(decode, Some(context), fs) + [Complete]
  {
    hide Encode, Flatten, Frames, Tail, Batch, Clean, Delivered, HasTrailer, TrailerReading, Reference;
    hide NothingAfterTrailer, Observe;
    var md: Headers := [Header("grpc-status", [status])];
    var trailer: WireFrame := Frame(0x80, TrailerPayload(md));
    OkStatusIsRead(status);
    WellFormedBody(decode, context, fs, trailer);
    assert [] + Flatten(pieces) == Flatten(pieces);
    NoFrames();
    NonEmptyPieces([], pieces);
    TimingIndependence(decode, context, pieces, k);
  }

  lemma OkStatusIsRead(status: string)
    requires IsVisible(status) && ParseInt(status) == Some(0)
    ensures TrailerReading(TrailerPayload([Header("grpc-status", [status])])) == NoError
  {
    hide ParseInt, TrailerPayload, ParseTrailer, TrailerText;
    var md: Headers := [Header("grpc-status", [status])];
    ErrorKeys();
    OneOrTwoIsPrintable(GRPC_STATUS, status, GRPC_MESSAGE, None);
    assert md + [] == md;
    TrailerPayloadRoundTrip(md);
    ReadingMeaning(md);
  }

  /** The status text of a success, as servers and proxies print it. */
  lemma ZeroIsOk()
    ensures IsVisible("0") && ParseInt("0") == Some(0)
  {
    DecimalDigits(0);
    ParseDecimal(0);
  }

  /** A body of messages and one trailer can be taken in, and no piece follows its trailer. */
  lemma BodyArrives<M(!new)>(
      encode: Server.Encoder<M>, decode: Decoder<M>, context: Context,
      ms: seq<M>, failure: Option<HandlerError>, pieces: seq<Bytes>)
    requires Inverse(encode, decode) && Server.Sendable(encode, ms) && Server.Fits(failure)
    requires Flatten(pieces) == Encode(Server.MessageFrames(encode, ms) + [Server.TrailerFrame(failure)])
    requires forall p :: p in pieces ==> p != []
    ensures NothingAfterTrailer([], pieces) && Clean(decode, Seen(Flatten(pieces)))
    ensures Reference(decode, context, Flatten(pieces), None)
         == [Ready] + MessageEvents(ms, context) + [EndEvent(failure, context)]
  {
    hide Encode, Flatten, Frames, Tail, Batch, Clean, Delivered, HasTrailer, TrailerReading, Reference;
    hide NothingAfterTrailer;
    hide Server.MessageFrames, Server.TrailerFrame, Server.Fits, Received, ErrorToSend;
    MessageFramesAreClean(encode, decode, context, ms);
    TrailerFrameReading(failure);
    WellFormedBody(decode, context, Server.MessageFrames(encode, ms), Server.TrailerFrame(failure));
    assert [] + Flatten(pieces) == Flatten(pieces);
    NoFrames();
    NonEmptyPieces([], pieces);
  }

  /** Such a body is observed in full, for every split and every moment. */
  lemma BodyDelivery<M(!new)>(
      encode: Server.Encoder<M>, decode: Decoder<M>, context: Context,
      ms: seq<M>, failure: Option<HandlerError>, pieces: seq<Bytes>, k: nat)
    requires Inverse(encode, decode) && Server.Sendable(encode, ms) && Server.Fits(failure)
    requires Flatten(pieces) == Encode(Server.MessageFrames(encode, ms) + [Server.TrailerFrame(failure)])
    requires k <= |pieces| + 1 && forall p :: p in pieces ==> p != []
    ensures Observe(decode, pieces, k, Decoded(context), None)
         == [Ready] + MessageEvents(ms, context) + [EndEvent(failure, context)]
  {
    hide Encode, Flatten, Observe, Reference, NothingAfterTrailer, Clean, Seen, Inverse, Server.Sendable, Server.Fits;
    hide MessageEvents, EndEvent, Server.MessageFrames, Server.TrailerFrame;
    BodyArrives(encode, decode, context, ms, failure, pieces);
    TimingIndependence(decode, context, pieces, k);
  }

  /** The body a conforming handler produces. */
  function HandlerBody<M>(encode: Server.Encoder<M>, ms: seq<M>, failure: Option<HandlerError>): Bytes {
    BodyOf(encode, [Server.OnReady] + (Server.MessageCalls(ms) + [Server.EndCall(failure)]))
  }

  lemma HandlerBodyMeaning<M>(encode: Server.Encoder<M>, ms: seq<M>, failure: Option<HandlerError>)
    requires Server.Sendable(encode, ms) && Server.Fits(failure)
    ensures HandlerBody(encode, ms, failure)
         == Encode(Server.MessageFrames(encode, ms) + [Server.TrailerFrame(failure)])
  {
    hide Encode, Server.Run, Server.Continue, Server.Sendable, Server.Fits;
    Server.ConformingRun(encode, ms, failure);
  }

  /**
   * End-to-end delivery: for every conforming handler run, every split of the response body into
   * non-empty pieces, and every moment at which the decoding of plain headers with HTTP status 200
   * settles, the client emits exactly `ready`, all messages in order, then `complete`, or an error
   * with the server's type and the transmitted message.
   */
  lemma StreamDelivery<M(!new)>(
      encode: Server.Encoder<M>, decode: Decoder<M>,
      ms: seq<M>, failure: Option<HandlerError>, pieces: seq<Bytes>, k: nat,
      headers: Headers, context: Context, decodeContext: Headers -> Option<Context>)
    requires Inverse(encode, decode) && Server.Sendable(encode, ms) && Server.Fits(failure)
    requires Flatten(pieces) == HandlerBody(encode, ms, failure) && forall p :: p in pieces ==> p != []
    requires k <= |pieces| + 1 && PlainHeaders(headers) && decodeContext(headers) == Some(context)
    ensures Observe(decode, pieces, k, ReadHeaders(headers, 200, decodeContext), None)
         == [Ready] + MessageEvents(ms, context) + [EndEvent(failure, context)]
  {
    hide Encode, Flatten, Observe, Inverse, HandlerBody, Server.Sendable, Server.Fits, ReadHeaders, PlainHeaders;
    PlainHeadersOutcome(headers, 200, context, decodeContext);
    HandlerBodyMeaning(encode, ms, failure);
    BodyDelivery(encode, decode, context, ms, failure, pieces, k);
  }

  // Handlers that call back in any order

  /** The body of the response to a handler that makes these calls before the server goes on. */
  function BodyOf<M>(encode: Server.Encoder<M>, calls: seq<Server.Call<M>>): Bytes {
    var s := Server.Run(encode, Server.NEW_SERVER, calls);
    if s.promise == Server.Pending then [] else Encode(Server.Continue(s).frames)
  }

  /** The promise of the stream has settled, with an error that fits a frame if it is rejected. */
  predicate Concluded<M>(encode: Server.Encoder<M>, calls: seq<Server.Call<M>>) {
    var s := Server.Run(encode, Server.NEW_SERVER, calls);
    s.promise != Server.Pending && (s.promise.Rejected? ==> Server.Fits(Some(s.promise.error)))
  }

  function Outcome(promise: Server.Promise): Option<HandlerError> {
    match promise
    case Rejected(e) => Some(e)
    case _ => None
  }

  /** What the client ought to see: the messages that were accepted, and how the stream ended. */
  function Truth<M>(encode: Server.Encoder<M>, calls: seq<Server.Call<M>>, context: Context): seq<ClientEvent<M>> {
    var s := Server.Run(encode, Server.NEW_SERVER, calls);
    [Ready] + MessageEvents(Server.Accepted(encode, Server.NEW_SERVER, calls), context)
    + [EndEvent(Outcome(s.promise), context)]
  }

  /** What it sees when the headers are decoded first: all that precedes the first trailer. */
  function FirstTold<M>(encode: Server.Encoder<M>, calls: seq<Server.Call<M>>, context: Context): seq<ClientEvent<M>> {
    var s := Server.Run(encode, Server.NEW_SERVER, calls);
    [Ready] + MessageEvents(Server.BeforeReturn(encode, Server.NEW_SERVER, calls), context)
    + [if Server.Returns(encode, Server.NEW_SERVER, calls) then Complete else EndEvent(Outcome(s.promise), context)]
  }

  /** The frames of the body: messages, a trailer, and whatever the handler wrote behind it. */
  lemma FramesOfBody<M>(encode: Server.Encoder<M>, calls: seq<Server.Call<M>>) returns (failure: Option<HandlerError>)
    requires Concluded(encode, calls)
    ensures var s := Server.Run(encode, Server.NEW_SERVER, calls);
            var ms := Server.BeforeReturn(encode, Server.NEW_SERVER, calls);
            && failure == (if Server.Returns(encode, Server.NEW_SERVER, calls) then None else Outcome(s.promise))
            && Server.Sendable(encode, ms) && Server.Fits(failure) && s.promise != Server.Pending
            && Server.MessageFrames(encode, ms) + [Server.TrailerFrame(failure)] <= Server.Continue(s).frames
            && (Server.Orderly(encode, Server.NEW_SERVER, calls) ==>
                  && failure == Outcome(s.promise)
                  && ms == Server.Accepted(encode, Server.NEW_SERVER, calls)
                  && Server.Continue(s).frames == Server.MessageFrames(encode, ms) + [Server.TrailerFrame(failure)])
  {
    hide Server.Run, Server.Orderly, Server.Returns, Server.BeforeReturn, Server.Accepted;
    hide Server.SuccessTrailer, Server.ErrorPayload;
    var s, ms := Server.Run(encode, Server.NEW_SERVER, calls), Server.BeforeReturn(encode, Server.NEW_SERVER, calls);
    Server.OutcomeOfRun(encode, Server.NEW_SERVER, calls);
    Server.RunFrames(encode, Server.NEW_SERVER, calls);
    var fs := Server.MessageFrames(encode, ms);
    assert [] + fs == fs;
    failure := if Server.Returns(encode, Server.NEW_SERVER, calls) then None else Outcome(s.promise);
  }

  /**
   * For arbitrary calls of the handler, a client whose headers are decoded first, or that receives
   * nothing in a piece behind the first trailer, sees the messages written before the handler
   * returned, then `complete` if it returned, even when the stream was rejected, and the error
   * otherwise.
   */
  lemma EarlyDelivery<M(!new)>(
      encode: Server.Encoder<M>, decode: Decoder<M>, context: Context, calls: seq<Server.Call<M>>,
      pieces: seq<Bytes>, k: nat)
    requires Inverse(encode, decode) && Concluded(encode, calls) && Flatten(pieces) == BodyOf(encode, calls)
    requires k == 0 || (k <= |pieces| + 1 && NothingAfterTrailer([], pieces))
    ensures Observe(decode, pieces, k, Decoded(context), None) == FirstTold(encode, calls, context)
  {
    hide Encode, Flatten, Frames, Tail, Batch, Clean, Delivered, HasTrailer, TrailerReading, Observe, StateAfter, Taken;
    hide NothingAfterTrailer, Server.Run, Server.Continue, Server.MessageFrames, Server.TrailerFrame;
    hide Server.Fits, Received, ErrorToSend;
    hide Server.BeforeReturn, Server.Returns, Server.Orderly, Server.Accepted, Concluded;
    var failure := FramesOfBody(encode, calls);
    var ms := Server.BeforeReturn(encode, Server.NEW_SERVER, calls);
    var all := Server.Continue(Server.Run(encode, Server.NEW_SERVER, calls)).frames;
    var fs, trailer, body := Server.MessageFrames(encode, ms), Server.TrailerFrame(failure), Flatten(pieces);
    MessageFramesAreClean(encode, decode, context, ms);
    TrailerFrameReading(failure);
    WellFormedBody(decode, context, fs, trailer);
    SeenOfEncoded(fs, trailer, all);
    LateNeedsTrailer(pieces);
    if k > 0 {
      TakenIsSeen(pieces, k);
    }
    MomentMeaning(decode, context, pieces, k);
  }

  lemma SeenOfEncoded(fs: seq<WireFrame>, trailer: WireFrame, all: seq<WireFrame>)
    requires !HasTrailer(fs) && IsTrailer(trailer) && fs + [trailer] <= all
    ensures Seen(Encode(all)) == fs + [trailer]
  {
    hide Encode, Frames, Tail, HasTrailer;
    assert Encode(all) + [] == Encode(all);
    NoFrames();
    DecodeEncode(all, []);
    var more := [trailer] + all[|fs| + 1..];
    assert all == fs + more && more[1..] == all[|fs| + 1..];
    BatchConcat(fs, more);
  }

  /** A handler that swallows the failure of `onMessage` and returns: rejected, and yet complete. */
  lemma RejectedYetComplete<M(!new)>(encode: Server.Encoder<M>, decode: Decoder<M>, context: Context, m: M, k: nat)
    requires Inverse(encode, decode) && k <= 2
    ensures var calls := [Server.OnMessage(m), Server.Return];
            && Server.Run(encode, Server.NEW_SERVER, calls).promise.Rejected?
            && Observe(decode, [BodyOf(encode, calls)], k, Decoded(context), None) == [Ready, Complete]
  {
    hide Observe, BodyOf, Inverse, Server.ErrorPayload, Server.SuccessTrailer;
    var calls := [Server.OnMessage(m), Server.Return];
    var rejected := Server.NEW_SERVER.(promise := Server.Rejected(OtherError("onMessage called before onReady")));
    assert calls[1..] == [Server.Return];
    assert Server.Step(encode, Server.NEW_SERVER, calls[0]) == rejected;
    assert Server.BeforeReturn(encode, rejected, calls[1..]) == [];
    Server.SwallowedFailure(encode, m);
    Server.SameInternalError("onMessage called before onReady");
    Server.InternalTrailerFits();
    OnePiece(BodyOf(encode, calls));
    assert Server.BeforeReturn(encode, Server.NEW_SERVER, calls) == [] + [];
    assert Server.Returns(encode, rejected, calls[1..]);
    assert Concluded(encode, calls);
    EarlyDelivery(encode, decode, context, calls, [BodyOf(encode, calls)], k);
    assert MessageEvents<M>([], context) == [];
  }

  /** The client sees the truth, however the body is cut and whenever the headers are decoded. */
  ghost predicate Truthful<M>(
      encode: Server.Encoder<M>, decode: Decoder<M>, context: Context, calls: seq<Server.Call<M>>) {
    forall pieces, k ::
      Flatten(pieces) == BodyOf(encode, calls) && (forall p :: p in pieces ==> p != []) && 0 <= k <= |pieces| + 1 ==>
        Observe(decode, pieces, k, Decoded(context), None) == Truth(encode, calls, context)
  }

  /**
   * End-to-end delivery for arbitrary handlers: every client sees `ready`, the accepted messages,
   * then `complete` or the error of the stream, if and only if the handler is orderly.
   */
  lemma TruthfulIffOrderly<M(!new)>(
      encode: Server.Encoder<M>, decode: Decoder<M>, context: Context, calls: seq<Server.Call<M>>)
    requires Inverse(encode, decode) && Concluded(encode, calls)
    ensures Truthful(encode, decode, context, calls) <==> Server.Orderly(encode, Server.NEW_SERVER, calls)
  {
    hide Encode, Flatten, Observe, Inverse, Server.Run, Server.Continue, Server.MessageFrames;
    hide Server.TrailerFrame, Server.Fits;
    hide Server.BeforeReturn, Server.Returns, Server.Orderly, Server.Accepted, Server.Sendable, Concluded;
    hide EndEvent, MessageEvents;
    var failure := FramesOfBody(encode, calls);
    var body := BodyOf(encode, calls);
    if Server.Orderly(encode, Server.NEW_SERVER, calls) {
      forall pieces, k | Flatten(pieces) == body && (forall p :: p in pieces ==> p != []) && 0 <= k <= |pieces| + 1
        ensures Observe(decode, pieces, k, Decoded(context), None) == Truth(encode, calls, context)
      {
        BodyDelivery(encode, decode, context, Server.Accepted(encode, Server.NEW_SERVER, calls), failure, pieces, k);
      }
    } else {
      var pieces := [body];
      OnePiece(body);
      WrittenIsNotEmpty(encode, calls);
      EarlyDelivery(encode, decode, context, calls, pieces, 0);
      DisorderShows(encode, context, calls);
    }
  }

  lemma OnePiece(body: Bytes)
    ensures Flatten([body]) == body
  {
    assert [body][1..] == [];
    assert body + [] == body;
  }

  lemma WrittenIsNotEmpty<M>(encode: Server.Encoder<M>, calls: seq<Server.Call<M>>)
    requires Concluded(encode, calls)
    ensures BodyOf(encode, calls) != []
  {
    hide Server.Run, Server.Continue, Server.MessageFrames, Server.TrailerFrame, Server.Fits;
    hide Server.BeforeReturn, Server.Returns, Server.Orderly, Server.Accepted, Concluded;
    var failure := FramesOfBody(encode, calls);
    Server.NothingWritten(Server.Continue(Server.Run(encode, Server.NEW_SERVER, calls)).frames);
  }

  lemma {:induction false} MessageEventsLength<M>(ms: seq<M>, context: Context)
    ensures |MessageEvents(ms, context)| == |ms|
  {
    if ms == [] {
    } else {
      MessageEventsLength(ms[1..], context);
    }
  }

  /** What is first told differs from the truth in its last event or in its length. */
  lemma DisorderShows<M>(encode: Server.Encoder<M>, context: Context, calls: seq<Server.Call<M>>)
    requires Concluded(encode, calls) && !Server.Orderly(encode, Server.NEW_SERVER, calls)
    ensures FirstTold(encode, calls, context) != Truth(encode, calls, context)
  {
    hide Server.Run, Server.BeforeReturn, Server.Returns, Server.Orderly, Server.Accepted, Server.Fits;
    hide Received, ErrorToSend;
    hide MessageEvents;
    Server.OutcomeOfRun(encode, Server.NEW_SERVER, calls);
    MessageEventsLength(Server.BeforeReturn(encode, Server.NEW_SERVER, calls), context);
    MessageEventsLength(Server.Accepted(encode, Server.NEW_SERVER, calls), context);
    var told, truth := FirstTold(encode, calls, context), Truth(encode, calls, context);
    assert |told| != |truth| || told[|told| - 1] != truth[|truth| - 1];
  }

  // Unary methods

  lemma {:induction false} GetBehind(front: Headers, back: Headers, key: string)
    requires forall h :: h in front ==> h.key != key
    ensures Get(front + back, key) == Get(back, key)
  {
    if front == [] {
      assert front + back == back;
    } else {
      assert (front + back)[1..] == front[1..] + back;
      GetBehind(front[1..], back, key);
    }
  }

  lemma {:induction false} PlainTextDecodes(s: string)
    requires forall i :: 0 <= i < |s| ==> IsDigit(s[i])
    ensures DecodeHeaderValue(s) == Some(s)
  {
    if s == "" {
    } else {
      PlainTextDecodes(s[1..]);
      assert [s[0]] + s[1..] == s;
    }
  }

  lemma OneValueDecodes(value: string)
    ensures DecodeAll([value]).Some? <==> DecodeHeaderValue(value).Some?
  {
    var values := [value];
    assert values[1..] == [] && DecodeAll(values[1..]) == Some([]);
  }

  lemma ErrorHeadersDecode(e: GrpcWebError)
    ensures forall h :: h in MetadataOf(e) ==> DecodeAll(h.values).Some?
  {
    hide StatusOf, DecodeHeaderValue, EncodeHeaderValue;
    var status := Decimal(StatusOf(e.errorType));
    PlainTextDecodes(status);
    OneValueDecodes(status);
    if MessageValue(e).Some? {
      HeaderValueRoundTrip(e.message.value);
      OneValueDecodes(MessageValue(e).value);
    }
  }

  /** An error sent as response headers is the outcome of decoding these headers. */
  lemma HeadersReport(
      e: GrpcWebError, others: Headers, status: int, context: Context, decode: Headers -> Option<Context>)
    requires PlainHeaders(others) && decode(others + MetadataOf(e)) == Some(context)
    ensures ReadHeaders(others + MetadataOf(e), status, decode)
         == GrpcFailure(RpcError(e.errorType, Some(TextOf(e.message)), Some(context)))
  {
    hide MetadataOf, DecodeAll, TypeOf, ParseInt;
    GetBehind(others, MetadataOf(e), GRPC_STATUS);
    GetBehind(others, MetadataOf(e), GRPC_MESSAGE);
    ErrorMetadataRoundTrip(e);
    ErrorHeadersDecode(e);
  }

  /**
   * Unary delivery: the answer reaches the client as `ready`, one message, `complete`; an error of
   * the handler, or of encoding, as the only event, through the response headers.
   */
  lemma UnaryAnswerDelivery<M(!new)>(
      encode: Server.Encoder<M>, decode: Decoder<M>, m: M, pieces: seq<Bytes>, k: nat,
      headers: Headers, context: Context, decodeContext: Headers -> Option<Context>)
    requires Inverse(encode, decode) && Server.UnaryResult(encode, Ok(m)).Answer?
    requires Flatten(pieces) == Encode(Server.UnaryResult(encode, Ok(m)).frames) && forall p :: p in pieces ==> p != []
    requires k <= |pieces| + 1 && PlainHeaders(headers) && decodeContext(headers) == Some(context)
    ensures Observe(decode, pieces, k, ReadHeaders(headers, 200, decodeContext), None)
         == [Ready, Message(Response(m, Some(context))), Complete]
  {
    hide Encode, Flatten, Observe, ReadHeaders, PlainHeaders;
    PlainHeadersOutcome(headers, 200, context, decodeContext);
    assert [m][1..] == [];
    Server.NoTrailerText();
    assert Server.MessageFrames(encode, [m]) + [Server.TrailerFrame(None)] == Server.UnaryResult(encode, Ok(m)).frames;
    BodyDelivery(encode, decode, context, [m], None, pieces, k);
    assert MessageEvents([m], context) == [Message(Response(m, Some(context)))];
  }

  lemma UnaryErrorDelivery<M>(
      e: HandlerError, others: Headers, status: int, context: Context, decode: Headers -> Option<Context>,
      decodeMessage: Decoder<M>, pieces: seq<Bytes>, k: nat)
    requires k <= |pieces| + 1
    requires PlainHeaders(others) && decode(others + MetadataOf(ErrorToSend(e))) == Some(context)
    ensures Observe(decodeMessage, pieces, k, ReadHeaders(others + MetadataOf(ErrorToSend(e)), status, decode), None)
         == [EndEvent(Some(e), context)]
  {
    hide MetadataOf, ErrorToSend, ReadHeaders, Observe;
    HeadersReport(ErrorToSend(e), others, status, context, decode);
    TransmittedError(e);
    var outcome := ReadHeaders(others + MetadataOf(ErrorToSend(e)), status, decode);
    HeaderFailureReported(decodeMessage, outcome, pieces, k, None);
  }

  // Up to the promises of the caller

  /** The projection `methodMap` applies to every message. */
  function ResponseOf<M>(r: Response<M>): Result<M, ClientError> {
    Ok(r.response)
  }

  lemma {:induction false} MessagesOfEvents<M>(ms: seq<M>, context: Context)
    ensures Promises.MapAll((r: Response<M>) => ResponseOf(r), Messages(MessageEvents(ms, context))) == Ok(ms)
    ensures IsOpen(MessageEvents(ms, context))
  {
    if ms == [] {
    } else {
      MessagesOfEvents(ms[1..], context);
      var e: ClientEvent<M> := Message(Response(ms[0], Some(context)));
      assert MessageEvents(ms, context)[1..] == MessageEvents(ms[1..], context);
      assert Messages(MessageEvents(ms, context)) == [e.message] + Messages(MessageEvents(ms[1..], context));
      assert [ms[0]] + ms[1..] == ms;
    }
  }

  /**
   * The promise of a server stream: it resolves to the list of messages the handler sent when the
   * handler returned, and is rejected with the transmitted error when it threw.
   */
  lemma PromiseDelivery<M(!new)>(
      encode: Server.Encoder<M>, decode: Decoder<M>,
      ms: seq<M>, failure: Option<HandlerError>, pieces: seq<Bytes>, k: nat,
      headers: Headers, context: Context, decodeContext: Headers -> Option<Context>)
    requires Inverse(encode, decode) && Server.Sendable(encode, ms) && Server.Fits(failure)
    requires Flatten(pieces) == HandlerBody(encode, ms, failure) && forall p :: p in pieces ==> p != []
    requires k <= |pieces| + 1 && PlainHeaders(headers) && decodeContext(headers) == Some(context)
    ensures var events := Observe(decode, pieces, k, ReadHeaders(headers, 200, decodeContext), None);
            Promises.PromiseOf(Promises.Transform((r: Response<M>) => ResponseOf(r), events)) ==
            match failure
            case None => Some(Ok(ms))
            case Some(_) => Some(Err(Promises.StreamError(EndEvent<M>(failure, context).error)))
  {
    hide Observe, Inverse, Server.Sendable, Server.Fits, HandlerBody, Received, Promises.PromiseOf;
    hide Promises.Transform, MessageEvents, Flatten;
    hide ReadHeaders, PlainHeaders;
    StreamDelivery(encode, decode, ms, failure, pieces, k, headers, context, decodeContext);
    var fn := (r: Response<M>) => ResponseOf(r);
    var middle, end: ClientEvent<M> := MessageEvents(ms, context), EndEvent<M>(failure, context);
    MessagesOfEvents(ms, context);
    var front := [Ready] + middle;
    OpenOne<Response<M>, ClientError>(Ready);
    OpenConcat([Ready], middle);
    TraceOfOneMore(front, end);
    Promises.StreamMapLaw(fn, front + [end]);
    MessagesConcat(front, [end]);
    MessagesConcat([Ready], middle);
    NoMessages<Response<M>, ClientError>(Ready);
    NoMessages(end);
    assert [] + Messages(middle) + [] == Messages(middle);
  }

  /** The promise of a unary call: the answer of the handler. */
  lemma CallDelivery<M(!new)>(
      encode: Server.Encoder<M>, decode: Decoder<M>, m: M, pieces: seq<Bytes>, k: nat,
      headers: Headers, context: Context, decodeContext: Headers -> Option<Context>)
    requires Inverse(encode, decode) && Server.UnaryResult(encode, Ok(m)).Answer?
    requires Flatten(pieces) == Encode(Server.UnaryResult(encode, Ok(m)).frames) && forall p :: p in pieces ==> p != []
    requires k <= |pieces| + 1 && PlainHeaders(headers) && decodeContext(headers) == Some(context)
    ensures var events := Observe(decode, pieces, k, ReadHeaders(headers, 200, decodeContext), None);
            Promises.CallRun(Promises.NewCall(), events).settled == Some(Ok(Response(m, Some(context))))
  {
    hide Observe, Inverse, Server.UnaryResult, Promises.CallRun, Flatten, Encode;
    hide ReadHeaders, PlainHeaders;
    UnaryAnswerDelivery(encode, decode, m, pieces, k, headers, context, decodeContext);
    var message: ClientEvent<M> := Message(Response(m, Some(context)));
    var front := [Ready, message];
    TraceOfOneMore(front, Complete);
    assert front + [Complete] == [Ready, message, Complete];
    assert [Ready, message, Complete][1..] == [message, Complete] && [message, Complete][1..] == [Complete];
    NoMessages<Response<M>, ClientError>(Complete);
    assert Messages([message, Complete]) == [message.message];
    assert Messages([Ready, message, Complete]) == [message.message];
    Promises.CallResolves([Ready, message, Complete], message.message);
  }

  /** The promise of a unary call whose handler, or whose answer, fails: the transmitted error. */
  lemma CallRejection<M>(
      encode: Server.Encoder<M>, result: Result<M, HandlerError>, e: HandlerError,
      others: Headers, status: int, context: Context, decode: Headers -> Option<Context>,
      decodeMessage: Decoder<M>, pieces: seq<Bytes>, k: nat)
    requires k <= |pieces| + 1
    requires Server.UnaryResult(encode, result) == Server.HeaderError(MetadataOf(ErrorToSend(e)))
    requires PlainHeaders(others) && decode(others + Server.UnaryResult(encode, result).metadata) == Some(context)
    ensures var headers := others + Server.UnaryResult(encode, result).metadata;
            var events := Observe(decodeMessage, pieces, k, ReadHeaders(headers, status, decode), None);
            Promises.CallRun(Promises.NewCall(), events).settled
            == Some(Err(Promises.StreamError(EndEvent<M>(Some(e), context).error)))
  {
    hide Observe, Server.UnaryResult, Promises.CallRun, ReadHeaders, MetadataOf, ErrorToSend, Received, PlainHeaders;
    UnaryErrorDelivery(e, others, status, context, decode, decodeMessage, pieces, k);
    var end: ClientEvent<M> := EndEvent<M>(Some(e), context);
    TraceOfOneMore<Response<M>, ClientError>([], end);
    assert [] + [end] == [end];
    NoMessages(end);
    Promises.CallMeaning(Promises.NewCall<Response<M>, ClientError>(), [end]);
    assert [] + Messages([end]) == [];
  }

  /** Such a result always comes from an error of the handler or of the encoding. */
  lemma UnaryFailures<M>(encode: Server.Encoder<M>, result: Result<M, HandlerError>) returns (e: HandlerError)
    requires Server.UnaryResult(encode, result).HeaderError?
    ensures Server.UnaryResult(encode, result) == Server.HeaderError(MetadataOf(ErrorToSend(e)))
    ensures result.Err? ==> e == result.error
    ensures result.Ok? ==> Server.MessagePayload(encode, result.value) == Err(e)
  {
    hide MetadataOf, ErrorToSend, Server.MessagePayload;
    e := match result case Err(error) => error case Ok(m) => Server.MessagePayload(encode, m).error;
  }
}
