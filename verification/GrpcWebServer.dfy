/** The server side: what handler calls, in any order, write on the HTTP response. */
module GrpcWebServer {
  import opened Wrappers
  import opened Wire
  import opened HeaderValues
  import opened Metadata
  import opened GrpcErrors
  import opened ChunkParsing

  /** `Err` is an exception of the codec; only a `ServerRpcError` keeps its type. */
  type Encoder<!M> = M -> Result<Bytes, HandlerError>

  datatype StreamStatus = NotReady | IsReady | Ended

  datatype Promise = Pending | Resolved | Rejected(error: HandlerError)

  datatype Server = Server(
    status: StreamStatus,
    returned: bool,          // the promise of the handler has settled
    promise: Promise,        // the promise the server awaits
    headers: Headers,        // error metadata sent as response headers
    frames: seq<WireFrame>,  // what is written
    finished: bool)

  /** What a handler does, and the continuation of the awaited promise. */
  datatype Call<+M> = OnReady | OnMessage(message: M) | Return | Throw(error: HandlerError)

  const NEW_SERVER := Server(NotReady, false, Pending, [], [], false)

  function SuccessTrailer(): (f: WireFrame)
    ensures IsTrailer(f) && f.payload == TrailerPayload([])
  {
    NoTrailerText();
    Frame(TRAILER_FLAG, TrailerPayload([]))
  }

  lemma NoTrailerText()
    ensures TrailerPayload([]) == []
  {
  }

  function ErrorPayload(e: HandlerError): Bytes {
    TrailerPayload(MetadataOf(ErrorToSend(e)))
  }

  /** The frame for any other error; it always fits. */
  function InternalTrailer(): (f: WireFrame)
    ensures IsTrailer(f)
  {
    InternalTrailerFits();
    Frame(TRAILER_FLAG, ErrorPayload(OtherError("")))
  }

  lemma InternalTrailerFits()
    ensures |ErrorPayload(OtherError(""))| < U32_LIMIT
  {
    hide EncodeUtf8, TrailerText, MetadataOf, IsAsciiText, AllAscii;
    var e := GrpcWebError(Internal, None);
    ErrorHeadersArePrintable(e);
    AsciiRoundTrip(TrailerText(MetadataOf(e)));
    BareErrorText(Internal);
    assert |Decimal(13)| == 2 && |GRPC_STATUS| == 11;
  }

  function Reject(s: Server, e: HandlerError): Server {
    if s.promise == Pending then s.(promise := Rejected(e)) else s
  }

  /** The payload of a message frame, or the error that rejects the stream. */
  function MessagePayload<M>(encode: Encoder<M>, m: M): Result<Bytes, HandlerError> {
    match encode(m)
    case Err(e) => Err(if e.ServerRpcError? then e else OtherError("cannot encode message"))
    case Ok(payload) => if |payload| < U32_LIMIT then Ok(payload) else Err(OtherError("frame too long"))
  }

  function OnMessageStep<M>(encode: Encoder<M>, s: Server, m: M): Server {
    match s.status
    case NotReady => Reject(s, OtherError("onMessage called before onReady"))
    case Ended => Reject(s, OtherError("onMessage called after end of streaming"))
    case IsReady =>
      match encode(m)
      case Err(_) => Reject(s, MessagePayload(encode, m).error)
      case Ok(payload) =>
        if s.finished then Reject(s, OtherError("onMessage after end"))
        else if |payload| >= U32_LIMIT then Reject(s, MessagePayload(encode, m).error)
        else s.(frames := s.frames + [Frame(0, payload)])
  }

  function Step<M>(encode: Encoder<M>, s: Server, call: Call<M>): Server {
    match call
    case OnReady =>
      // A second `onReady` is accepted: its error is built but not thrown.
      if s.status == Ended then Reject(s, OtherError("onReady called after end of streaming"))
      else s.(status := IsReady)
    case OnMessage(m) => OnMessageStep(encode, s, m)
    case Return =>
      if s.returned then s
      else
        var written := if s.finished then s else s.(frames := s.frames + [SuccessTrailer()]);
        written.(returned := true, promise := if s.promise == Pending then Resolved else s.promise)
    case Throw(e) =>
      if s.returned then s else Reject(s.(returned := true), e)
  }

  /**
   * The code after the awaited promise: it runs once the promise has settled. When the error
   * does not fit a frame, the route reports an internal error in its place: in the headers
   * if nothing is written yet.
   */
  function Continue(s: Server): (t: Server)
    requires s.promise != Pending
    ensures t.finished
  {
    match s.promise
    case Resolved => s.(finished := true)
    case Rejected(e) =>
      var ended, payload := s.(status := Ended, finished := true), ErrorPayload(e);
      if |payload| < U32_LIMIT then ended.(frames := s.frames + [Frame(TRAILER_FLAG, payload)])
      else if s.frames == [] then ended.(headers := s.headers + MetadataOf(ErrorToSend(OtherError(""))))
      else ended.(frames := s.frames + [InternalTrailer()])
  }

  function Run<M>(encode: Encoder<M>, s: Server, calls: seq<Call<M>>): Server
    decreases calls
  {
    if calls == [] then s else Run(encode, Step(encode, s, calls[0]), calls[1..])
  }

  // The classes

  /** The HTTP response, as far as the server uses it. */
  class HttpResponse {
    var headers: Headers
    var body: Bytes
    var finished: bool

    constructor ()
      ensures headers == [] && body == [] && !finished
    {
      headers, body, finished := [], [], false;
    }

    /** A write after the end leaves the body alone. */
    method Write(bytes: array<byte>)
      modifies this`body
      ensures body == if finished then old(body) else old(body) + bytes[..]
    {
      if !finished {
        body := body + bytes[..];
      }
    }

    method Finish()
      modifies this`finished
      ensures finished
    {
      finished := true;
    }
  }

  method ToArray(bytes: Bytes) returns (a: array<byte>)
    ensures fresh(a) && a[..] == bytes
  {
    a := new byte[|bytes|](i requires 0 <= i < |bytes| => bytes[i]);
  }

  lemma EncodeOneMore(fs: seq<WireFrame>, f: WireFrame)
    ensures Encode(fs + [f]) == Encode(fs) + FrameBytes(f)
  {
    EncodeConcat(fs, [f]);
    EncodeStep(f, []);
  }

  class ServerStream<M> {
    const encodeMessage: Encoder<M>
    const resp: HttpResponse
    var status: StreamStatus
    var promise: Promise
    var returned: bool
    ghost var frames: seq<WireFrame>

    ghost predicate Valid()
      reads this, resp
    {
      resp.body == Encode(frames)
    }

    ghost function Abs(): Server
      reads this, resp
    {
      Server(status, returned, promise, resp.headers, frames, resp.finished)
    }

    constructor (encodeMessage: Encoder<M>, resp: HttpResponse)
      requires resp.headers == [] && resp.body == [] && !resp.finished
      ensures Valid() && Abs() == NEW_SERVER && this.resp == resp && this.encodeMessage == encodeMessage
    {
      this.encodeMessage, this.resp := encodeMessage, resp;
      status, promise, returned := NotReady, Pending, false;
      frames := [];
    }

    method RejectWith(e: HandlerError)
      requires Valid()
      modifies this`promise
      ensures Valid() && Abs() == Reject(old(Abs()), e)
    {
      if promise == Pending {
        promise := Rejected(e);
      }
    }

    method WriteFrame(firstByte: byte, payload: Bytes) returns (ok: bool)
      requires Valid()
      modifies this`frames, resp`body
      ensures Valid() && (ok <==> |payload| < U32_LIMIT)
      ensures frames == if ok && !resp.finished then old(frames) + [Frame(firstByte, payload)] else old(frames)
    {
      var encoded := ToArray(payload);
      var buf;
      ok, buf := EncodeFrame(firstByte, encoded);
      if ok {
        resp.Write(buf);
        if !resp.finished {
          EncodeOneMore(frames, Frame(firstByte, payload));
          frames := frames + [Frame(firstByte, payload)];
        }
      }
    }

    method ReadyCalled()
      requires Valid()
      modifies this
      ensures Valid() && Abs() == Step(encodeMessage, old(Abs()), OnReady)
    {
      if status == Ended {
        RejectWith(OtherError("onReady called after end of streaming"));
        return;
      }
      status := IsReady;
    }

    method MessageCalled(message: M)
      requires Valid()
      modifies this, resp`body
      ensures Valid() && Abs() == Step(encodeMessage, old(Abs()), OnMessage(message))
    {
      if status == NotReady {
        RejectWith(OtherError("onMessage called before onReady"));
        return;
      } else if status == Ended {
        RejectWith(OtherError("onMessage called after end of streaming"));
        return;
      }
      match encodeMessage(message)
      case Err(e) =>
        RejectWith(if e.ServerRpcError? then e else OtherError("cannot encode message"));
      case Ok(payload) =>
        if resp.finished {
          RejectWith(OtherError("onMessage after end"));
          return;
        }
        var ok := WriteFrame(0, payload);
        if !ok {
          RejectWith(OtherError("frame too long"));
        }
    }

    method HandlerReturned()
      requires Valid() && !returned
      modifies this, resp`body
      ensures Valid() && Abs() == Step(encodeMessage, old(Abs()), Return)
    {
      NoTrailerText();
      returned := true;
      var trailer := EncodeTrailer([]);
      var ok := WriteFrame(TRAILER_FLAG, trailer);
      if promise == Pending {
        promise := Resolved;
      }
    }

    method HandlerThrew(e: HandlerError)
      requires Valid() && !returned
      modifies this
      ensures Valid() && Abs() == Step(encodeMessage, old(Abs()), Throw(e))
    {
      returned := true;
      RejectWith(e);
    }

    /** The end of `processServerStream` and the route's `catch`, after the promise has settled. */
    method Conclude()
      requires Valid() && promise != Pending && !resp.finished
      modifies this, resp
      ensures Valid() && Abs() == Continue(old(Abs()))
    {
      hide TrailerPayload, MetadataOf;
      match promise
      case Resolved =>
        resp.Finish();
      case Rejected(e) =>
        status := Ended;
        var metadata := GetMetadataFromGrpcWebError(ErrorToSend(e));
        var trailer := EncodeTrailer(metadata);
        var ok := WriteFrame(TRAILER_FLAG, trailer);
        if !ok {
          // The exception reaches the route, which reports an internal error.
          metadata := GetMetadataFromGrpcWebError(ErrorToSend(OtherError("")));
          if resp.body == [] {
            NothingWritten(frames);
            resp.headers := resp.headers + metadata;
          } else {
            InternalTrailerFits();
            trailer := EncodeTrailer(metadata);
            ok := WriteFrame(TRAILER_FLAG, trailer);
          }
        }
        resp.Finish();
    }
  }

  lemma NothingWritten(fs: seq<WireFrame>)
    ensures Encode(fs) == [] <==> fs == []
  {
  }

  // Runs

  lemma {:induction false} RunConcat<M>(encode: Encoder<M>, s: Server, a: seq<Call<M>>, b: seq<Call<M>>)
    ensures Run(encode, s, a + b) == Run(encode, Run(encode, s, a), b)
    decreases a
  {
    hide Step;
    if a == [] {
      assert a + b == b;
    } else {
      assert (a + b)[1..] == a[1..] + b;
      RunConcat(encode, Step(encode, s, a[0]), a[1..], b);
    }
  }

  /** A response that is ended stays as it is, whatever the handler still calls. */
  lemma {:induction false} FinishedIsFinal<M>(encode: Encoder<M>, s: Server, calls: seq<Call<M>>)
    requires s.finished
    ensures var t := Run(encode, s, calls); t.finished && t.frames == s.frames
    decreases calls
  {
    hide TrailerPayload;
    if calls == [] {
    } else {
      FinishedIsFinal(encode, Step(encode, s, calls[0]), calls[1..]);
    }
  }

  /** Before `onReady`, at most the trailer of an empty stream is written. */
  lemma {:induction false} NoMessageBeforeReady<M>(encode: Encoder<M>, s: Server, calls: seq<Call<M>>)
    requires forall f :: f in s.frames ==> IsTrailer(f)
    requires s.status == NotReady && forall call :: call in calls ==> !call.OnReady?
    ensures forall f :: f in Run(encode, s, calls).frames ==> IsTrailer(f)
    decreases calls
  {
    hide TrailerPayload;
    if calls == [] {
    } else {
      NoMessageBeforeReady(encode, Step(encode, s, calls[0]), calls[1..]);
    }
  }

  function MessageCalls<M>(ms: seq<M>): seq<Call<M>> {
    if ms == [] then [] else [OnMessage(ms[0])] + MessageCalls(ms[1..])
  }

  /** All messages have a frame. */
  predicate Sendable<M>(encode: Encoder<M>, ms: seq<M>) {
    ms == [] || (MessagePayload(encode, ms[0]).Ok? && Sendable(encode, ms[1..]))
  }

  function MessageFrame<M>(encode: Encoder<M>, m: M): WireFrame
    requires MessagePayload(encode, m).Ok?
  {
    Frame(0, MessagePayload(encode, m).value)
  }

  function MessageFrames<M>(encode: Encoder<M>, ms: seq<M>): seq<WireFrame>
    requires Sendable(encode, ms)
  {
    if ms == [] then [] else [MessageFrame(encode, ms[0])] + MessageFrames(encode, ms[1..])
  }

  lemma MessageIsWritten<M>(encode: Encoder<M>, s: Server, m: M)
    requires s.status == IsReady && !s.finished && MessagePayload(encode, m).Ok?
    ensures Step(encode, s, OnMessage(m)) == s.(frames := s.frames + [MessageFrame(encode, m)])
  {
  }

  lemma {:induction false} MessagesAreWritten<M>(encode: Encoder<M>, s: Server, ms: seq<M>)
    requires s.status == IsReady && !s.finished && Sendable(encode, ms)
    ensures Run(encode, s, MessageCalls(ms)) == s.(frames := s.frames + MessageFrames(encode, ms))
    decreases ms
  {
    hide Step, MessagePayload, MessageFrame;
    if ms == [] {
      assert s.frames + MessageFrames(encode, ms) == s.frames;
    } else {
      var f, rest := MessageFrame(encode, ms[0]), MessageFrames(encode, ms[1..]);
      var t := s.(frames := s.frames + [f]);
      MessageIsWritten(encode, s, ms[0]);
      RunFirst(encode, s, OnMessage(ms[0]), MessageCalls(ms[1..]));
      MessagesAreWritten(encode, t, ms[1..]);
      assert s.frames + [f] + rest == s.frames + ([f] + rest);
    }
  }

  lemma RunFirst<M>(encode: Encoder<M>, s: Server, call: Call<M>, calls: seq<Call<M>>)
    ensures Run(encode, s, [call] + calls) == Run(encode, Step(encode, s, call), calls)
  {
    hide Step;
    assert ([call] + calls)[1..] == calls;
  }

  /** How a handler ends: `None` returns, `Some` throws. */
  function EndCall<M>(failure: Option<HandlerError>): Call<M> {
    match failure
    case None => Return
    case Some(e) => Throw(e)
  }

  /** The trailer frame for an ending, if the error fits a frame. */
  predicate Fits(failure: Option<HandlerError>) {
    failure.Some? ==> |ErrorPayload(failure.value)| < U32_LIMIT
  }

  function TrailerFrame(failure: Option<HandlerError>): WireFrame
    requires Fits(failure)
  {
    match failure
    case None => SuccessTrailer()
    case Some(e) => Frame(TRAILER_FLAG, ErrorPayload(e))
  }

  /**
   * A conforming handler, `onReady` then messages then the end, puts the frames of its messages
   * on the wire in call order, then exactly one trailer, and the response is ended.
   */
  lemma ConformingRun<M>(encode: Encoder<M>, ms: seq<M>, failure: Option<HandlerError>)
    requires Sendable(encode, ms) && Fits(failure)
    ensures var s := Run(encode, NEW_SERVER, [OnReady] + (MessageCalls(ms) + [EndCall(failure)]));
            && s.promise != Pending
            && Continue(s).frames == MessageFrames(encode, ms) + [TrailerFrame(failure)]
            && Continue(s).finished
  {
    hide ErrorPayload, SuccessTrailer, MessagePayload;
    var ready := NEW_SERVER.(status := IsReady);
    var first: seq<Call<M>> := [OnReady];
    RunConcat(encode, NEW_SERVER, first, MessageCalls(ms) + [EndCall(failure)]);
    assert first[1..] == [];
    RunConcat(encode, ready, MessageCalls(ms), [EndCall(failure)]);
    MessagesAreWritten(encode, ready, ms);
    assert ready.frames + MessageFrames(encode, ms) == MessageFrames(encode, ms);
    assert [EndCall<M>(failure)][1..] == [];
  }

  // The exact condition for a well-shaped body

  /** Messages, then exactly one trailer. */
  predicate WellShaped(fs: seq<WireFrame>) {
    fs != [] && IsTrailer(fs[|fs| - 1]) && !HasTrailer(fs[..|fs| - 1])
  }

  /** Whether the callback would put this message on the wire. */
  predicate Accepts<M>(encode: Encoder<M>, s: Server, m: M) {
    s.status == IsReady && !s.finished && MessagePayload(encode, m).Ok?
  }

  /** The handler does not return once a callback has failed, and sends nothing once it has returned. */
  predicate Orderly<M>(encode: Encoder<M>, s: Server, calls: seq<Call<M>>)
    decreases calls
  {
    calls == [] ||
    (&& (calls[0].Return? && !s.returned ==> s.promise == Pending)
     && (calls[0].OnMessage? && Accepts(encode, s, calls[0].message) ==> s.promise != Resolved)
     && Orderly(encode, Step(encode, s, calls[0]), calls[1..]))
  }

  predicate InOrder(s: Server) {
    && !s.finished
    && (s.promise == Resolved ==> s.returned)
    && if s.promise == Resolved then WellShaped(s.frames) else !HasTrailer(s.frames)
  }

  predicate OutOfOrder(s: Server) {
    && !s.finished && s.returned && s.promise != Pending
    && HasTrailer(s.frames)
    && (s.promise == Resolved ==> !IsTrailer(s.frames[|s.frames| - 1]))
  }

  lemma OneMoreFrame(fs: seq<WireFrame>, f: WireFrame)
    ensures HasTrailer(fs + [f]) <==> HasTrailer(fs) || IsTrailer(f)
    ensures WellShaped(fs + [f]) <==> !HasTrailer(fs) && IsTrailer(f)
  {
    HasTrailerConcat(fs, [f]);
    assert (fs + [f])[..|fs|] == fs;
    assert HasTrailer([f]) <==> IsTrailer(f) by {
      assert [f][0] == f;
    }
  }

  lemma {:induction false} StaysOutOfOrder<M>(encode: Encoder<M>, s: Server, calls: seq<Call<M>>)
    requires OutOfOrder(s)
    ensures OutOfOrder(Run(encode, s, calls))
    decreases calls
  {
    hide HasTrailer, SuccessTrailer;
    if calls == [] {
    } else {
      if calls[0].OnMessage? && Accepts(encode, s, calls[0].message) {
        OneMoreFrame(s.frames, MessageFrame(encode, calls[0].message));
      }
      StaysOutOfOrder(encode, Step(encode, s, calls[0]), calls[1..]);
    }
  }

  lemma {:induction false} OrderlyRuns<M>(encode: Encoder<M>, s: Server, calls: seq<Call<M>>)
    requires InOrder(s)
    ensures Orderly(encode, s, calls) ==> InOrder(Run(encode, s, calls))
    ensures !Orderly(encode, s, calls) ==> OutOfOrder(Run(encode, s, calls))
    decreases calls
  {
    hide HasTrailer, WellShaped, SuccessTrailer;
    if calls == [] {
    } else {
      var t := Step(encode, s, calls[0]);
      match calls[0]
      case OnReady =>
        OrderlyRuns(encode, t, calls[1..]);
      case Throw(_) =>
        OrderlyRuns(encode, t, calls[1..]);
      case OnMessage(m) =>
        if Accepts(encode, s, m) {
          OneMoreFrame(s.frames, MessageFrame(encode, m));
        }
        if Accepts(encode, s, m) && s.promise == Resolved {
          WellShapedHasTrailer(s.frames);
          StaysOutOfOrder(encode, t, calls[1..]);
        } else {
          OrderlyRuns(encode, t, calls[1..]);
        }
      case Return =>
        OneMoreFrame(s.frames, SuccessTrailer());
        if !s.returned && s.promise != Pending {
          StaysOutOfOrder(encode, t, calls[1..]);
        } else {
          OrderlyRuns(encode, t, calls[1..]);
        }
    }
  }

  lemma WellShapedHasTrailer(fs: seq<WireFrame>)
    ensures WellShaped(fs) ==> HasTrailer(fs)
  {
  }

  /**
   * For arbitrary calls of a handler up to the continuation: the ended response carries messages
   * followed by exactly one trailer if and only if the handler is orderly.
   */
  lemma WellShapedIffOrderly<M>(encode: Encoder<M>, calls: seq<Call<M>>)
    requires var s := Run(encode, NEW_SERVER, calls);
             s.promise != Pending && (s.promise.Rejected? ==> Fits(Some(s.promise.error)))
    ensures WellShaped(Continue(Run(encode, NEW_SERVER, calls)).frames) <==> Orderly(encode, NEW_SERVER, calls)
  {
    hide HasTrailer, WellShaped, ErrorPayload, Run, Orderly;
    var s := Run(encode, NEW_SERVER, calls);
    assert !HasTrailer([]) by {
      NoFrames();
      FramesWithoutTrailer();
    }
    OrderlyRuns(encode, NEW_SERVER, calls);
    if s.promise.Rejected? {
      OneMoreFrame(s.frames, Frame(TRAILER_FLAG, ErrorPayload(s.promise.error)));
    } else {
      LastIsTrailer(s.frames);
    }
  }

  lemma FramesWithoutTrailer()
    ensures !HasTrailer([])
  {
  }

  lemma LastIsTrailer(fs: seq<WireFrame>)
    ensures WellShaped(fs) ==> fs != [] && IsTrailer(fs[|fs| - 1])
  {
  }

  /**
   * A handler that swallows the failure of `onMessage` and returns: the stream is rejected, but a
   * success trailer is written in front of the error trailer.
   */
  lemma SwallowedFailure<M>(encode: Encoder<M>, m: M)
    ensures var s := Run(encode, NEW_SERVER, [OnMessage(m), Return]);
            && s.promise == Rejected(OtherError("onMessage called before onReady"))
            && Continue(s).frames == [SuccessTrailer(), InternalTrailer()]
            && !WellShaped(Continue(s).frames)
  {
    hide ErrorPayload, SuccessTrailer;
    var calls := [OnMessage(m), Return];
    var rejected := NEW_SERVER.(promise := Rejected(OtherError("onMessage called before onReady")));
    RunFirst(encode, NEW_SERVER, OnMessage(m), [Return]);
    RunFirst(encode, rejected, Return, []);
    assert [OnMessage(m)] + [Return] == calls && [Return] + [] == calls[1..];
    SameInternalError("onMessage called before onReady");
    InternalTrailerFits();
    OneMoreFrame([SuccessTrailer()], InternalTrailer());
    assert HasTrailer([SuccessTrailer()]) by { assert IsTrailer([SuccessTrailer()][0]); }
    assert [SuccessTrailer()] + [InternalTrailer()] == [SuccessTrailer(), InternalTrailer()];
  }

  lemma SameInternalError(text: string)
    ensures ErrorPayload(OtherError(text)) == ErrorPayload(OtherError(""))
  {
  }

  // What arbitrary calls of a handler put on the wire

  /** The messages that are written. */
  function Accepted<M>(encode: Encoder<M>, s: Server, calls: seq<Call<M>>): seq<M>
    decreases calls
  {
    if calls == [] then []
    else
      (if calls[0].OnMessage? && Accepts(encode, s, calls[0].message) then [calls[0].message] else [])
      + Accepted(encode, Step(encode, s, calls[0]), calls[1..])
  }

  /** Those that are written before the handler returns. */
  function BeforeReturn<M>(encode: Encoder<M>, s: Server, calls: seq<Call<M>>): seq<M>
    decreases calls
  {
    if calls == [] || (calls[0].Return? && !s.returned) then []
    else
      (if calls[0].OnMessage? && Accepts(encode, s, calls[0].message) then [calls[0].message] else [])
      + BeforeReturn(encode, Step(encode, s, calls[0]), calls[1..])
  }

  predicate Returns<M>(encode: Encoder<M>, s: Server, calls: seq<Call<M>>)
    decreases calls
  {
    calls != [] && ((calls[0].Return? && !s.returned) || Returns(encode, Step(encode, s, calls[0]), calls[1..]))
  }

  /** The frames one call writes. */
  function WrittenBy<M>(encode: Encoder<M>, s: Server, call: Call<M>): seq<WireFrame> {
    if call.Return? && !s.returned then [SuccessTrailer()]
    else if call.OnMessage? && Accepts(encode, s, call.message) then [MessageFrame(encode, call.message)]
    else []
  }

  lemma StepEffect<M>(encode: Encoder<M>, s: Server, call: Call<M>)
    requires !s.finished
    ensures var t := Step(encode, s, call);
            && !t.finished
            && t.frames == s.frames + WrittenBy(encode, s, call)
            && (t.promise == Resolved <==>
                  s.promise == Resolved || (call.Return? && !s.returned && s.promise == Pending))
            && (s.promise.Rejected? ==> t.promise == s.promise)
            && (s.returned || (call.Return? && !s.returned) ==> t.returned)
  {
    hide SuccessTrailer;
    assert s.frames + [] == s.frames;
  }

  lemma {:induction false} FramesGrow<M>(encode: Encoder<M>, s: Server, calls: seq<Call<M>>)
    requires !s.finished
    ensures s.frames <= Run(encode, s, calls).frames && !Run(encode, s, calls).finished
    decreases calls
  {
    hide Step, WrittenBy;
    if calls == [] {
    } else {
      StepEffect(encode, s, calls[0]);
      FramesGrow(encode, Step(encode, s, calls[0]), calls[1..]);
    }
  }

  /** A message that is accepted comes before those that are accepted later. */
  lemma OneMoreMessage<M>(encode: Encoder<M>, s: Server, m: M, rest: seq<M>)
    requires Accepts(encode, s, m) && Sendable(encode, rest)
    ensures Sendable(encode, [m] + rest)
    ensures MessageFrames(encode, [m] + rest) == WrittenBy(encode, s, OnMessage(m)) + MessageFrames(encode, rest)
  {
    hide MessagePayload, SuccessTrailer;
    assert ([m] + rest)[1..] == rest;
  }

  /** The frames of any calls: messages, and behind them what follows the return of the handler. */
  lemma {:induction false} RunFrames<M>(encode: Encoder<M>, s: Server, calls: seq<Call<M>>)
    requires !s.finished
    ensures var ms, frames := BeforeReturn(encode, s, calls), Run(encode, s, calls).frames;
            && Sendable(encode, ms)
            && (if Returns(encode, s, calls) then s.frames + MessageFrames(encode, ms) + [SuccessTrailer()] <= frames
                else frames == s.frames + MessageFrames(encode, ms) && ms == Accepted(encode, s, calls))
    decreases calls
  {
    hide Step, SuccessTrailer, MessagePayload, Accepts, Sendable, MessageFrames;
    NoMessageFrames(encode);
    if calls == [] {
      assert s.frames + [] == s.frames;
    } else {
      var t := Step(encode, s, calls[0]);
      var rest := BeforeReturn(encode, t, calls[1..]);
      StepEffect(encode, s, calls[0]);
      if calls[0].Return? && !s.returned {
        FramesGrow(encode, t, calls[1..]);
        assert s.frames + [] == s.frames;
      } else {
        RunFrames(encode, t, calls[1..]);
        if calls[0].OnMessage? && Accepts(encode, s, calls[0].message) {
          OneMoreMessage(encode, s, calls[0].message, rest);
          assert s.frames + (WrittenBy(encode, s, calls[0]) + MessageFrames(encode, rest))
              == t.frames + MessageFrames(encode, rest);
        } else {
          assert [] + rest == rest && [] + Accepted(encode, t, calls[1..]) == Accepted(encode, t, calls[1..]);
          assert s.frames + [] == s.frames;
        }
      }
    }
  }

  lemma NoMessageFrames<M>(encode: Encoder<M>)
    ensures Sendable(encode, []) && MessageFrames(encode, []) == []
  {
  }

  lemma {:induction false} AfterReturn<M>(encode: Encoder<M>, s: Server, calls: seq<Call<M>>)
    requires s.promise == Resolved && s.returned && !s.finished
    ensures Run(encode, s, calls).promise == Resolved
    ensures Orderly(encode, s, calls) <==> Accepted(encode, s, calls) == []
    ensures Orderly(encode, s, calls) ==> Run(encode, s, calls).frames == s.frames
    decreases calls
  {
    hide Step, Accepts;
    if calls == [] {
    } else {
      StepEffect(encode, s, calls[0]);
      AfterReturn(encode, Step(encode, s, calls[0]), calls[1..]);
      assert s.frames + [] == s.frames;
    }
  }

  lemma {:induction false} SettledStays<M>(encode: Encoder<M>, s: Server, calls: seq<Call<M>>)
    requires s.promise != Pending
    ensures Run(encode, s, calls).promise == s.promise
    decreases calls
  {
    hide SuccessTrailer, MessagePayload;
    if calls == [] {
    } else {
      SettledStays(encode, Step(encode, s, calls[0]), calls[1..]);
    }
  }

  /** The frames at the end of an orderly handler that returns. */
  ghost predicate ReturnedInOrder<M>(encode: Encoder<M>, s: Server, calls: seq<Call<M>>) {
    var t, ms := Run(encode, s, calls), BeforeReturn(encode, s, calls);
    && t.promise == Resolved
    && ms == Accepted(encode, s, calls)
    && Sendable(encode, ms) && t.frames == s.frames + MessageFrames(encode, ms) + [SuccessTrailer()]
  }

  /** How the promise ends, and what is written after the return of an orderly and of a disorderly handler. */
  lemma {:induction false} OutcomeOfRun<M>(encode: Encoder<M>, s: Server, calls: seq<Call<M>>)
    requires !s.finished && s.promise != Resolved
    ensures !Returns(encode, s, calls) ==> Run(encode, s, calls).promise != Resolved && Orderly(encode, s, calls)
    ensures Returns(encode, s, calls) && Orderly(encode, s, calls) ==> ReturnedInOrder(encode, s, calls)
    ensures Returns(encode, s, calls) && !Orderly(encode, s, calls) ==>
              Run(encode, s, calls).promise.Rejected? || |Accepted(encode, s, calls)| > |BeforeReturn(encode, s, calls)|
    decreases calls
  {
    hide Step, SuccessTrailer, MessagePayload, Accepts, Sendable, MessageFrames;
    if calls == [] {
    } else {
      var t := Step(encode, s, calls[0]);
      var rest := BeforeReturn(encode, t, calls[1..]);
      StepEffect(encode, s, calls[0]);
      if calls[0].Return? && !s.returned {
        NoMessageFrames(encode);
        assert s.frames + [] == s.frames;
        if s.promise == Pending {
          AfterReturn(encode, t, calls[1..]);
        } else {
          SettledStays(encode, t, calls[1..]);
        }
      } else {
        OutcomeOfRun(encode, t, calls[1..]);
        RunFrames(encode, t, calls[1..]);
        if calls[0].OnMessage? && Accepts(encode, s, calls[0].message) {
          OneMoreMessage(encode, s, calls[0].message, rest);
          assert s.frames + (WrittenBy(encode, s, calls[0]) + MessageFrames(encode, rest))
              == t.frames + MessageFrames(encode, rest);
        } else {
          assert [] + rest == rest && [] + Accepted(encode, t, calls[1..]) == Accepted(encode, t, calls[1..]);
          assert s.frames + [] == s.frames;
        }
      }
    }
  }

  /** Once the stream has ended with an error, a late callback is refused: it changes nothing any more. */
  lemma LateCallbacks<M>(encode: Encoder<M>, s: Server, m: M)
    requires s.promise.Rejected?
    ensures var t := Continue(s);
            && Step(encode, t, OnReady) == t && Step(encode, t, OnMessage(m)) == t
            && Step(encode, t.(promise := Pending), OnReady).promise.Rejected?
            && Step(encode, t.(promise := Pending), OnMessage(m)).promise.Rejected?
  {
    hide ErrorPayload, MetadataOf, InternalTrailer;
  }

  // Repeated calls of `onReady`

  function WithoutReady<M>(calls: seq<Call<M>>): seq<Call<M>> {
    if calls == [] then []
    else (if calls[0].OnReady? then [] else [calls[0]]) + WithoutReady(calls[1..])
  }

  /** Every `onReady` after the first is left out. */
  function ReadyOnce<M>(calls: seq<Call<M>>): seq<Call<M>> {
    if calls == [] then []
    else [calls[0]] + if calls[0].OnReady? then WithoutReady(calls[1..]) else ReadyOnce(calls[1..])
  }

  lemma {:induction false} ReadyIsIdle<M>(encode: Encoder<M>, s: Server, calls: seq<Call<M>>)
    requires s.status == IsReady
    ensures Run(encode, s, WithoutReady(calls)) == Run(encode, s, calls)
    decreases calls
  {
    if calls == [] {
    } else {
      var rest := WithoutReady(calls[1..]);
      StatusStays(encode, s, calls[0]);
      ReadyIsIdle(encode, Step(encode, s, calls[0]), calls[1..]);
      if calls[0].OnReady? {
        assert [] + rest == rest && Step(encode, s, calls[0]) == s;
      } else {
        hide Step;
        RunFirst(encode, s, calls[0], rest);
      }
    }
  }

  lemma StatusStays<M>(encode: Encoder<M>, s: Server, call: Call<M>)
    ensures s.status == IsReady ==> Step(encode, s, call).status == IsReady
    ensures s.status != Ended ==> Step(encode, s, call).status != Ended
  {
    hide MessagePayload, SuccessTrailer;
  }

  /** A repeated `onReady` is no error, and leaves the server as it is, wherever it is called. */
  lemma {:induction false} RepeatedReadyIsIdle<M>(encode: Encoder<M>, s: Server, calls: seq<Call<M>>)
    requires s.status != Ended
    ensures Run(encode, s, ReadyOnce(calls)) == Run(encode, s, calls)
    decreases calls
  {
    if calls == [] {
    } else {
      StatusStays(encode, s, calls[0]);
      var t := Step(encode, s, calls[0]);
      if calls[0].OnReady? {
        ReadyIsIdle(encode, t, calls[1..]);
        RunFirst(encode, s, calls[0], WithoutReady(calls[1..]));
      } else {
        hide Step;
        RepeatedReadyIsIdle(encode, t, calls[1..]);
        RunFirst(encode, s, calls[0], ReadyOnce(calls[1..]));
      }
    }
  }

  // What a rejection depends on

  /** Errors that differ in private texts at most. */
  predicate Alike(a: HandlerError, b: HandlerError) {
    match (a, b)
    case (ServerRpcError(t, _, u), ServerRpcError(t', _, u')) => t == t' && TextOf(u) == TextOf(u')
    case (OtherError(_), OtherError(_)) => true
    case _ => false
  }

  predicate AlikePromises(p: Promise, q: Promise) {
    match (p, q)
    case (Rejected(e), Rejected(e')) => Alike(e, e')
    case _ => p == q
  }

  ghost predicate AlikeCalls<M>(a: Call<M>, b: Call<M>) {
    match (a, b)
    case (Throw(e), Throw(e')) => Alike(e, e')
    case _ => a == b
  }

  ghost predicate AlikeResults<T>(a: Result<T, HandlerError>, b: Result<T, HandlerError>) {
    match (a, b)
    case (Err(e), Err(e')) => Alike(e, e')
    case _ => a == b
  }

  ghost predicate AlikeEncoders<M(!new)>(encode: Encoder<M>, encode': Encoder<M>) {
    forall m :: AlikeResults(encode(m), encode'(m))
  }

  /** Servers that differ in the private texts of their rejection at most. */
  predicate AlikeServers(s: Server, t: Server) {
    AlikePromises(s.promise, t.promise) && s.(promise := Pending) == t.(promise := Pending)
  }

  lemma AlikeIsSentAlike(a: HandlerError, b: HandlerError)
    requires Alike(a, b)
    ensures MetadataOf(ErrorToSend(a)) == MetadataOf(ErrorToSend(b)) && ErrorPayload(a) == ErrorPayload(b)
  {
    hide StatusOf, EncodeHeaderValue, TrailerPayload;
  }

  lemma StepAlike<M(!new)>(encode: Encoder<M>, encode': Encoder<M>, s: Server, t: Server, a: Call<M>, b: Call<M>)
    requires AlikeEncoders(encode, encode') && AlikeServers(s, t) && AlikeCalls(a, b)
    ensures AlikeServers(Step(encode, s, a), Step(encode', t, b))
  {
    if a.OnMessage? {
      hide Reject;
      MessageAlike(encode, encode', s, t, a.message);
    } else {
      hide SuccessTrailer, OnMessageStep;
    }
  }

  lemma RejectAlike(s: Server, t: Server, e: HandlerError, e': HandlerError)
    requires AlikeServers(s, t) && Alike(e, e')
    ensures AlikeServers(Reject(s, e), Reject(t, e'))
  {
  }

  lemma MessageAlike<M(!new)>(encode: Encoder<M>, encode': Encoder<M>, s: Server, t: Server, m: M)
    requires AlikeEncoders(encode, encode') && AlikeServers(s, t)
    ensures AlikeServers(OnMessageStep(encode, s, m), OnMessageStep(encode', t, m))
  {
    hide Reject, Alike, AlikeServers;
    var result, result' := encode(m), encode'(m);
    assert AlikeResults(result, result');
    SameStage(s, t);
    match s.status
    case NotReady =>
      AnyOtherIsAlike("onMessage called before onReady", "onMessage called before onReady");
      RejectAlike(s, t, OtherError("onMessage called before onReady"), OtherError("onMessage called before onReady"));
    case Ended =>
      AnyOtherIsAlike("onMessage called after end of streaming", "onMessage called after end of streaming");
      RejectAlike(s, t, OtherError("onMessage called after end of streaming"),
                  OtherError("onMessage called after end of streaming"));
    case IsReady =>
      match result
      case Err(e) =>
        var sent, sent' := MessagePayload(encode, m).error, MessagePayload(encode', m).error;
        assert Alike(sent, sent') by { EncodingErrorsAlike(encode, encode', m); }
        RejectAlike(s, t, sent, sent');
      case Ok(payload) =>
        AnyOtherIsAlike("onMessage after end", "onMessage after end");
        AnyOtherIsAlike("frame too long", "frame too long");
        RejectAlike(s, t, OtherError("onMessage after end"), OtherError("onMessage after end"));
        RejectAlike(s, t, OtherError("frame too long"), OtherError("frame too long"));
        OneMoreFrameAlike(s, t, Frame(0, if |payload| < U32_LIMIT then payload else []));
  }

  lemma SameStage(s: Server, t: Server)
    requires AlikeServers(s, t)
    ensures s.status == t.status && s.finished == t.finished
  {
  }

  lemma OneMoreFrameAlike(s: Server, t: Server, f: WireFrame)
    requires AlikeServers(s, t)
    ensures AlikeServers(s.(frames := s.frames + [f]), t.(frames := t.frames + [f]))
  {
  }

  lemma AnyOtherIsAlike(a: string, b: string)
    ensures Alike(OtherError(a), OtherError(b))
  {
  }

  lemma EncodingErrorsAlike<M>(encode: Encoder<M>, encode': Encoder<M>, m: M)
    requires AlikeResults(encode(m), encode'(m)) && encode(m).Err?
    ensures Alike(MessagePayload(encode, m).error, MessagePayload(encode', m).error)
  {
  }

  lemma {:induction false} RunAlike<M(!new)>(
      encode: Encoder<M>, encode': Encoder<M>, s: Server, t: Server, calls: seq<Call<M>>, calls': seq<Call<M>>)
    requires AlikeEncoders(encode, encode') && AlikeServers(s, t)
    requires |calls| == |calls'| && forall i :: 0 <= i < |calls| ==> AlikeCalls(calls[i], calls'[i])
    ensures AlikeServers(Run(encode, s, calls), Run(encode', t, calls'))
    decreases calls
  {
    hide Step, AlikeServers, AlikeCalls, AlikeEncoders;
    if calls == [] {
    } else {
      StepAlike(encode, encode', s, t, calls[0], calls'[0]);
      RunAlike(encode, encode', Step(encode, s, calls[0]), Step(encode', t, calls'[0]), calls[1..], calls'[1..]);
    }
  }

  /**
   * Private texts stay private: two handlers, with their codecs, that differ at most in the private
   * messages of their errors write the same frames and send the same headers.
   */
  lemma PrivateTextsStayPrivate<M(!new)>(
      encode: Encoder<M>, encode': Encoder<M>, calls: seq<Call<M>>, calls': seq<Call<M>>)
    requires AlikeEncoders(encode, encode')
    requires |calls| == |calls'| && forall i :: 0 <= i < |calls| ==> AlikeCalls(calls[i], calls'[i])
    ensures var s, t := Run(encode, NEW_SERVER, calls), Run(encode', NEW_SERVER, calls');
            && (s.promise == Pending <==> t.promise == Pending)
            && (s.promise != Pending ==>
                  Continue(s).frames == Continue(t).frames && Continue(s).headers == Continue(t).headers)
  {
    hide Run, ErrorPayload, MetadataOf, ErrorToSend, AlikeCalls, AlikeEncoders, Alike;
    RunAlike(encode, encode', NEW_SERVER, NEW_SERVER, calls, calls');
    var s, t := Run(encode, NEW_SERVER, calls), Run(encode', NEW_SERVER, calls');
    if s.promise.Rejected? {
      AlikeIsSentAlike(s.promise.error, t.promise.error);
    }
  }

  /** How the first call that settles the promise settles it; texts of other errors are left open. */
  function FirstSettled<M>(encode: Encoder<M>, ready: bool, calls: seq<Call<M>>): Promise
    decreases calls
  {
    if calls == [] then Pending
    else
      match calls[0]
      case OnReady => FirstSettled(encode, true, calls[1..])
      case Return => Resolved
      case Throw(e) => Rejected(e)
      case OnMessage(m) =>
        if !ready then Rejected(OtherError(""))
        else
          match encode(m)
          case Ok(payload) =>
            if |payload| < 0x1_0000_0000 then FirstSettled(encode, ready, calls[1..]) else Rejected(OtherError(""))
          case Err(e) => Rejected(if e.ServerRpcError? then e else OtherError(""))
  }

  lemma {:induction false} FirstSettledWins<M>(encode: Encoder<M>, s: Server, calls: seq<Call<M>>)
    requires s.promise == Pending && !s.finished && !s.returned && s.status != Ended
    ensures AlikePromises(Run(encode, s, calls).promise, FirstSettled(encode, s.status == IsReady, calls))
    decreases calls
  {
    hide SuccessTrailer;
    if calls == [] {
    } else {
      var t := Step(encode, s, calls[0]);
      if t.promise == Pending {
        FirstSettledWins(encode, t, calls[1..]);
      } else {
        SettledStays(encode, t, calls[1..]);
      }
    }
  }

  /**
   * The first failure decides, for arbitrary calls: the promise is settled by the first return, the
   * first error thrown, or the first message that comes too early, cannot be encoded or is too long.
   */
  lemma PromiseMeaning<M>(encode: Encoder<M>, calls: seq<Call<M>>)
    ensures AlikePromises(Run(encode, NEW_SERVER, calls).promise, FirstSettled(encode, false, calls))
  {
    FirstSettledWins(encode, NEW_SERVER, calls);
  }

  /**
   * An error whose text fits no frame is replaced by a bare internal error: in a trailer if frames
   * have been written, and in the response headers otherwise.
   */
  lemma OversizedError(s: Server, e: HandlerError)
    requires s.promise == Rejected(e) && |ErrorPayload(e)| >= U32_LIMIT
    ensures var t := Continue(s);
            if s.frames == [] then t.frames == [] && t.headers == s.headers + [Header("grpc-status", ["13"])]
            else
              && t.headers == s.headers && |t.frames| == |s.frames| + 1 && t.frames[..|s.frames|] == s.frames
              && var last := t.frames[|s.frames|];
                 IsTrailer(last) && ParseTrailer(last.payload) == Some([Header("grpc-status", ["13"])])
  {
    hide TrailerPayload, ParseTrailer, MetadataOf;
    var internal := ErrorToSend(OtherError(""));
    ErrorMetadata(internal);
    assert [Header("grpc-status", ["13"])] + [] == [Header("grpc-status", ["13"])];
    ErrorTrailerRoundTrip(internal);
    InternalTrailerFits();
  }

  // Unary methods

  /** The response to a unary call: a body of two frames, or an error in the headers. */
  datatype UnaryResponse = Answer(frames: seq<WireFrame>) | HeaderError(metadata: Headers)

  function UnaryResult<M>(encode: Encoder<M>, result: Result<M, HandlerError>): UnaryResponse {
    match result
    case Err(e) => HeaderError(MetadataOf(ErrorToSend(e)))
    case Ok(m) =>
      match MessagePayload(encode, m)
      case Err(e) => HeaderError(MetadataOf(ErrorToSend(e)))
      case Ok(payload) => Answer([Frame(0, payload), SuccessTrailer()])
  }

  /** The error metadata goes out as response headers: nothing has been sent yet. */
  method SendHttpErrorResponse(e: HandlerError, resp: HttpResponse)
    requires resp.body == []
    modifies resp
    ensures resp.headers == old(resp.headers) + MetadataOf(ErrorToSend(e)) && resp.finished && resp.body == []
  {
    var metadata := GetMetadataFromGrpcWebError(ErrorToSend(e));
    resp.headers := resp.headers + metadata;
    resp.Finish();
  }

  lemma UnaryAnswer<M>(encode: Encoder<M>, m: M, payload: Bytes)
    requires encode(m) == Ok(payload)
    ensures |payload| < U32_LIMIT ==>
              var frames := [Frame(0, payload), SuccessTrailer()];
              && UnaryResult(encode, Ok(m)) == Answer(frames)
              && Encode(frames) == FrameBytes(Frame(0, payload)) + FrameBytes(SuccessTrailer())
    ensures |payload| >= U32_LIMIT ==>
              UnaryResult(encode, Ok(m)) == HeaderError(MetadataOf(ErrorToSend(OtherError("frame too long"))))
  {
    hide Encode, FrameBytes, SuccessTrailer, MetadataOf, ErrorToSend;
    if |payload| < U32_LIMIT {
      EncodeStep(Frame(0, payload), [SuccessTrailer()]);
      EncodeStep(SuccessTrailer(), []);
      assert [Frame(0, payload)] + [SuccessTrailer()] == [Frame(0, payload), SuccessTrailer()];
    }
  }

  lemma UnaryFailure<M>(encode: Encoder<M>, result: Result<M, HandlerError>)
    ensures result.Err? ==> UnaryResult(encode, result) == HeaderError(MetadataOf(ErrorToSend(result.error)))
    ensures result.Ok? && encode(result.value).Err? ==>
              var e := encode(result.value).error;
              UnaryResult(encode, result)
              == HeaderError(MetadataOf(ErrorToSend(
                   if e.ServerRpcError? then e else OtherError("cannot encode message"))))
  {
    hide MetadataOf, ErrorToSend;
  }

  method ProcessUnary<M>(encodeMessage: Encoder<M>, result: Result<M, HandlerError>, resp: HttpResponse)
    requires resp.body == [] && !resp.finished
    modifies resp
    ensures resp.finished
    ensures match UnaryResult(encodeMessage, result)
            case Answer(frames) => resp.body == Encode(frames) && resp.headers == old(resp.headers)
            case HeaderError(metadata) => resp.body == [] && resp.headers == old(resp.headers) + metadata
  {
    hide UnaryResult, MetadataOf, TrailerPayload, FrameBytes, ErrorToSend, Encode;
    UnaryFailure(encodeMessage, result);
    if result.Err? {
      SendHttpErrorResponse(result.error, resp);
      return;
    }
    match encodeMessage(result.value)
    case Err(e) =>
      SendHttpErrorResponse(if e.ServerRpcError? then e else OtherError("cannot encode message"), resp);
    case Ok(payload) =>
      UnaryAnswer(encodeMessage, result.value, payload);
      var encoded := ToArray(payload);
      var ok, message := EncodeFrame(0, encoded);
      if !ok {
        SendHttpErrorResponse(OtherError("frame too long"), resp);
        return;
      }
      resp.Write(message);
      NoTrailerText();
      var text := EncodeTrailer([]);
      var payload' := ToArray(text);
      var ok', trailer := EncodeFrame(TRAILER_FLAG, payload');
      resp.Write(trailer);
      assert [] + message[..] == message[..];
      resp.Finish();
  }

  /** The same for unary methods. */
  lemma PrivateTextsStayPrivateUnary<M(!new)>(
      encode: Encoder<M>, encode': Encoder<M>, result: Result<M, HandlerError>, result': Result<M, HandlerError>)
    requires AlikeEncoders(encode, encode') && AlikeResults(result, result')
    ensures UnaryResult(encode, result) == UnaryResult(encode', result')
  {
    hide MetadataOf, ErrorToSend, SuccessTrailer;
    if result.Ok? {
      assert AlikeResults(encode(result.value), encode'(result.value));
      if encode(result.value).Err? {
        AlikeIsSentAlike(MessagePayload(encode, result.value).error, MessagePayload(encode', result'.value).error);
      }
    } else {
      AlikeIsSentAlike(result.error, result'.error);
    }
  }
}
