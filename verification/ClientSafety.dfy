/** What holds of the client stream over arbitrary orders of callbacks. */
module ClientSafety {
  import opened Wrappers
  import opened Wire
  import opened Metadata
  import opened GrpcErrors
  import opened ChunkParsing
  import opened Streams
  import opened GrpcWebClient
  import opened ClientFrames

  predicate IsMilestone<M>(e: ClientEvent<M>) {
    e.Ready? || e.Complete?
  }

  /** The `ready` and `complete` events, in order. */
  function Milestones<M>(events: seq<ClientEvent<M>>): seq<ClientEvent<M>> {
    if events == [] then []
    else
      var last, before := events[|events| - 1], Milestones(events[..|events| - 1]);
      if IsMilestone(last) then before + [last] else before
  }

  lemma MilestonesOfEmit<M>(c: Client<M>, e: ClientEvent<M>)
    ensures Milestones(Emit(c, e).events) == Milestones(c.events) + (if IsMilestone(e) then [e] else [])
  {
    assert (c.events + [e])[..|c.events|] == c.events;
  }

  lemma {:induction false} MilestoneIn<M>(events: seq<ClientEvent<M>>, e: ClientEvent<M>)
    requires IsMilestone(e)
    ensures e in Milestones(events) <==> e in events
  {
    if events == [] {
    } else {
      MilestoneIn(events[..|events| - 1], e);
      assert events == events[..|events| - 1] + [events[|events| - 1]];
    }
  }

  ghost predicate ReadyFirst<M>(events: seq<ClientEvent<M>>) {
    forall i :: 0 <= i < |events| && events[i].Message? ==> Ready in events[..i]
  }

  /** The changes that taking in chunks may make. */
  ghost predicate Extends<M>(c: Client<M>, d: Client<M>) {
    && c.events <= d.events
    && Milestones(d.events) == Milestones(c.events)
    && d.awaiting == c.awaiting
    && d.transportCanceled == c.transportCanceled
    && (d.state == c.state || d.state == HasError || d.state == TrailersReceived)
  }

  lemma EmitExtends<M>(c: Client<M>, d: Client<M>, e: ClientEvent<M>)
    requires !IsMilestone(e) && d.events == c.events
    requires d.awaiting == c.awaiting && d.transportCanceled == c.transportCanceled
    requires d.state == c.state || d.state == HasError || d.state == TrailersReceived
    ensures Extends(c, Emit(d, e))
  {
    MilestonesOfEmit(d, e);
  }

  lemma {:induction false} HandleChunksExtends<M>(decode: Decoder<M>, c: Client<M>, chunks: seq<Chunk>)
    ensures Extends(c, HandleChunks(decode, c, chunks).client)
    decreases chunks
  {
    hide ErrorFromMetadata, Milestones, Emit;
    if chunks == [] {
    } else {
      var h := HandleChunk(decode, c, chunks[0]);
      assert Extends(c, h.client) by {
        match chunks[0]
        case MessageChunk(data) =>
          var m := decode(data);
          if m.Some? {
            EmitExtends(c, c, Message(Response(m.value, c.context)));
          }
        case TrailersChunk(trailers) =>
          var r := ErrorFromMetadata(trailers);
          if r.Failed? {
            EmitExtends(c, c.(state := HasError), Error(RpcError(r.error.errorType, r.error.message, c.context)));
          }
      }
      if !h.threw {
        HandleChunksExtends(decode, h.client, chunks[1..]);
      }
    }
  }

  lemma OnChunkExtends<M>(decode: Decoder<M>, c: Client<M>, bytes: Bytes)
    ensures Extends(c, OnChunk(decode, c, bytes).client)
  {
    hide ParseOnce, HandleChunks;
    var p := ParseOnce(c.unread + bytes);
    if p.chunks.Some? {
      HandleChunksExtends(decode, c.(unread := p.unread), p.chunks.value);
    }
  }

  lemma {:induction false} OnChunksExtends<M>(decode: Decoder<M>, c: Client<M>, pieces: seq<Bytes>)
    ensures Extends(c, OnChunks(decode, c, pieces).client)
    decreases pieces
  {
    hide OnChunk, Milestones;
    if pieces == [] {
    } else {
      OnChunkExtends(decode, c, pieces[0]);
      var h := OnChunk(decode, c, pieces[0]);
      if !h.threw {
        OnChunksExtends(decode, h.client, pieces[1..]);
      }
    }
  }

  // Run safety

  /**
   * What may happen next: the request context arrives once, while it is awaited, and the transport
   * calls back only afterwards. `start` and `cancel` are up to the caller.
   */
  predicate Possible<M>(c: Client<M>, input: Input) {
    match input
    case Connected => c.awaiting
    case HeadersSettled(_) => !c.awaiting
    case Piece(_) => !c.awaiting
    case End(_) => !c.awaiting
    case _ => true
  }

  predicate PossibleRun<M>(decode: Decoder<M>, c: Client<M>, inputs: seq<Input>)
    decreases inputs
  {
    inputs == [] || (Possible(c, inputs[0]) && PossibleRun(decode, Step(decode, c, inputs[0]), inputs[1..]))
  }

  ghost predicate Safe<M>(c: Client<M>) {
    && ReadyFirst(c.events)
    && (c.awaiting ==> Milestones(c.events) == [] && (c.state == WaitingForRequest || c.state == IsCanceled))
    && (c.state == WaitingForRequest ==> c.awaiting)
    && match c.state
       case Initial => Milestones(c.events) == []
       case WaitingForRequest => true
       case Started => Milestones(c.events) == []
       case EndedBeforeReady => Milestones(c.events) == []
       case IsReady => Milestones(c.events) == [Ready]
       case TrailersReceived => Milestones(c.events) == [Ready]
       case _ => Milestones(c.events) <= [Ready, Complete]
  }

  lemma EmitKeepsReadyFirst<M>(c: Client<M>, e: ClientEvent<M>)
    requires ReadyFirst(c.events) && !e.Message?
    ensures ReadyFirst(Emit(c, e).events)
  {
    forall i | 0 <= i < |Emit(c, e).events| && Emit(c, e).events[i].Message?
      ensures Ready in Emit(c, e).events[..i]
    {
      assert Emit(c, e).events[..i] == c.events[..i];
    }
  }

  lemma ExtensionKeepsReadyFirst<M>(c: Client<M>, d: Client<M>)
    requires ReadyFirst(c.events) && c.events <= d.events && Milestones(c.events) == [Ready]
    ensures ReadyFirst(d.events)
  {
    hide Milestones;
    MilestoneIn(c.events, Ready);
    forall i | 0 <= i < |d.events| && d.events[i].Message?
      ensures Ready in d.events[..i]
    {
      if i < |c.events| {
        assert d.events[..i] == c.events[..i] && d.events[i] == c.events[i];
      } else {
        assert d.events[..i][..|c.events|] == c.events;
      }
    }
  }

  lemma ExtensionIsSafe<M>(c: Client<M>, d: Client<M>)
    requires Safe(c) && (c.state == IsReady || c.state == TrailersReceived) && Extends(c, d)
    ensures Safe(d) && d.state in {IsReady, TrailersReceived, HasError} && Milestones(d.events) == [Ready]
  {
    hide Milestones, ReadyFirst;
    ExtensionKeepsReadyFirst(c, d);
  }

  lemma EmitIsSafe<M>(c: Client<M>, e: ClientEvent<M>)
    requires Safe(c) && !IsMilestone(e) && !e.Message?
    ensures Safe(Emit(c, e))
  {
    hide Milestones, ReadyFirst;
    MilestonesOfEmit(c, e);
    EmitKeepsReadyFirst(c, e);
  }

  lemma FinishIsSafe<M>(c: Client<M>)
    requires Safe(c)
    ensures Safe(Finish(c))
  {
    hide Milestones, ReadyFirst;
    if c.state == TrailersReceived {
      MilestonesOfEmit(c.(state := IsComplete), Complete);
      EmitKeepsReadyFirst(c.(state := IsComplete), Complete);
    } else if c.state != HasError {
      EmitIsSafe(c, Error(RpcError(Unavailable, None, None)));
    }
  }

  lemma GetReadyIsSafe<M>(decode: Decoder<M>, c: Client<M>)
    requires Safe(c) && !c.awaiting && (c.state == Started || c.state == EndedBeforeReady)
    ensures Safe(GetReady(decode, c))
  {
    hide Milestones, ReadyFirst, OnChunks;
    var ready := Emit(c.(state := IsReady), Ready);
    MilestonesOfEmit(c.(state := IsReady), Ready);
    EmitKeepsReadyFirst(c.(state := IsReady), Ready);
    OnChunksExtends(decode, ready, c.pending);
    var h := OnChunks(decode, ready, c.pending);
    ExtensionIsSafe(ready, h.client);
    EmitIsSafe(h.client, Error(Exception));
    FinishIsSafe(h.client);
  }

  lemma SettleIsSafe<M>(decode: Decoder<M>, c: Client<M>, outcome: HeaderOutcome)
    requires Safe(c) && !c.awaiting
    ensures Safe(OnHeadersSettled(decode, c, outcome))
  {
    hide Milestones, ReadyFirst, GetReady;
    match outcome
    case Decoded(context) =>
      var d := c.(context := Some(context));
      if c.state == Started || c.state == EndedBeforeReady {
        GetReadyIsSafe(decode, d);
      } else {
        EmitIsSafe(d, Error(Exception));
      }
    case GrpcFailure(e) =>
      EmitIsSafe(c.(transportCanceled := true), Error(e));
    case HeaderFailure(e) =>
      EmitIsSafe(c, Error(e));
  }

  /** Moving to a state without a claim of its own keeps the stream safe. */
  lemma LeaveIsSafe<M>(c: Client<M>, state: State, e: ClientEvent<M>)
    requires Safe(c) && (state == IsCanceled || (state == HasError && !c.awaiting)) && !IsMilestone(e) && !e.Message?
    ensures Safe(Emit(c.(state := state), e))
  {
    hide Milestones, ReadyFirst;
    MilestonesOfEmit(c.(state := state), e);
    EmitKeepsReadyFirst(c.(state := state), e);
  }

  lemma NoLongerAwaiting<M>(c: Client<M>)
    requires Safe(c)
    ensures Safe(c.(awaiting := false, state := HasError))
  {
    hide Milestones, ReadyFirst;
  }

  lemma StepIsSafe<M>(decode: Decoder<M>, c: Client<M>, input: Input)
    requires Safe(c) && Possible(c, input)
    ensures Safe(Step(decode, c, input))
  {
    hide Milestones, ReadyFirst, OnHeadersSettled, OnChunk, Finish, Emit;
    match input
    case Start(transport) =>
      if c.state == Initial && transport.Some? {
        LeaveIsSafe(c, HasError, Error(ClientTransportError(transport.value)));
      }
    case Connected =>
    case ConnectFailed(reason) =>
      NoLongerAwaiting(c);
      LeaveIsSafe(c.(awaiting := false, state := HasError), HasError, Error(RequestContextError(reason)));
    case HeadersSettled(outcome) =>
      SettleIsSafe(decode, c, outcome);
    case Piece(bytes) =>
      if c.state == IsReady {
        OnChunkExtends(decode, c, bytes);
        ExtensionIsSafe(c, OnChunk(decode, c, bytes).client);
      }
    case End(error) =>
      if error.Some? {
        LeaveIsSafe(c, HasError, Error(ErrorOfTransport(error.value)));
      }
      FinishIsSafe(c);
    case Cancel =>
      LeaveIsSafe(c.(transportCanceled := c.transportCanceled || c.state == Started), IsCanceled, Event.Canceled);
  }

  lemma {:induction false} RunIsSafe<M>(decode: Decoder<M>, c: Client<M>, inputs: seq<Input>)
    requires Safe(c) && PossibleRun(decode, c, inputs)
    ensures Safe(Run(decode, c, inputs))
    decreases inputs
  {
    hide Safe, Step, Possible;
    if inputs == [] {
    } else {
      StepIsSafe(decode, c, inputs[0]);
      RunIsSafe(decode, Step(decode, c, inputs[0]), inputs[1..]);
    }
  }

  /**
   * Run safety: over every possible history of a new stream, with any calls of the caller and any
   * order and number of callbacks, exceptions included, `ready` is emitted at most once, `complete`
   * at most once and only after it, and no message precedes it. While the request is awaited, the
   * stream is waiting or canceled.
   */
  lemma ClientRunSafety<M>(decode: Decoder<M>, inputs: seq<Input>)
    requires PossibleRun(decode, NewClient<M>(), inputs)
    ensures var c := Run(decode, NewClient<M>(), inputs);
            && Milestones(c.events) <= [Ready, Complete] && ReadyFirst(c.events)
            && (c.awaiting ==> c.state == WaitingForRequest || c.state == IsCanceled)
  {
    hide Run, PossibleRun;
    RunIsSafe(decode, NewClient<M>(), inputs);
  }

  // `complete` needs a trailer without an error

  /** The pieces of a replay that reach the parser. */
  function FedPieces<M>(decode: Decoder<M>, c: Client<M>, pieces: seq<Bytes>): Bytes
    decreases pieces
  {
    if pieces == [] then []
    else
      var h := OnChunk(decode, c, pieces[0]);
      pieces[0] + if h.threw then [] else FedPieces(decode, h.client, pieces[1..])
  }

  /** The bytes one callback hands to the parser. */
  function FedBy<M>(decode: Decoder<M>, c: Client<M>, input: Input): Bytes {
    match input
    case Piece(bytes) => if c.state == IsReady then bytes else []
    case HeadersSettled(outcome) =>
      if outcome.Decoded? && (c.state == Started || c.state == EndedBeforeReady)
      then FedPieces(decode, Emit(c.(context := Some(outcome.context), state := IsReady), Ready), c.pending)
      else []
    case _ => []
  }

  function Fed<M>(decode: Decoder<M>, c: Client<M>, inputs: seq<Input>): Bytes
    decreases inputs
  {
    if inputs == [] then []
    else FedBy(decode, c, inputs[0]) + Fed(decode, Step(decode, c, inputs[0]), inputs[1..])
  }

  predicate HasSuccess(fs: seq<WireFrame>) {
    exists i :: 0 <= i < |fs| && IsSuccess(fs[i])
  }

  /** `consumed` is what the parser has read of the bytes fed; a success was read before it shows. */
  ghost predicate Accounted<M>(c: Client<M>, consumed: Bytes) {
    && Tail(consumed) == []
    && (c.state == TrailersReceived || Complete in Milestones(c.events) ==> HasSuccess(Frames(consumed)))
  }

  lemma {:induction false} SuccessIsRead<M>(decode: Decoder<M>, c: Client<M>, fs: seq<WireFrame>)
    requires ChunksOf(fs).Some? && c.state != TrailersReceived
    ensures HandleChunks(decode, c, ChunksOf(fs).value).client.state == TrailersReceived ==> HasSuccess(fs)
    decreases fs
  {
    hide ErrorFromMetadata, ParseTrailer;
    if fs == [] {
    } else {
      var first, rest := ChunkOf(fs[0]).value, ChunksOf(fs[1..]).value;
      assert ChunksOf(fs).value == [first] + rest && ([first] + rest)[1..] == rest;
      var h := HandleChunk(decode, c, first);
      if IsSuccess(fs[0]) {
      } else {
        assert h.client.state != TrailersReceived;
        if !h.threw {
          SuccessIsRead(decode, h.client, fs[1..]);
          assert forall i :: 0 <= i < |fs[1..]| ==> fs[1..][i] == fs[i + 1];
        }
      }
    }
  }

  lemma OnChunkAccounted<M>(decode: Decoder<M>, c: Client<M>, bytes: Bytes, consumed: Bytes) returns (next: Bytes)
    requires Accounted(c, consumed)
    ensures var d := OnChunk(decode, c, bytes).client;
            Accounted(d, next) && consumed + c.unread + bytes == next + d.unread
  {
    hide ParseOnce, HandleChunks, Frames, Tail, Encode, Batch, ChunksOf, HasSuccess, Milestones;
    var b := c.unread + bytes;
    var batch, p := Seen(b), ParseOnce(b);
    ParseMeaning(b);
    OnChunkExtends(decode, c, bytes);
    next := consumed + Encode(batch);
    assert consumed + c.unread + bytes == consumed + b == next + p.unread;
    FramesConcat(consumed, Encode(batch));
    NoFrames();
    assert [] + Encode(batch) == Encode(batch) + [];
    DecodeEncode(batch, []);
    if p.chunks.Some? && c.state != TrailersReceived {
      SuccessIsRead(decode, c.(unread := p.unread), batch);
    }
    HandleChunksUnread(decode, c.(unread := p.unread), if p.chunks.Some? then p.chunks.value else []);
    HasSuccessConcat(Frames(consumed), batch);
  }

  lemma {:induction false} HandleChunksUnread<M>(decode: Decoder<M>, c: Client<M>, chunks: seq<Chunk>)
    ensures HandleChunks(decode, c, chunks).client.unread == c.unread
    decreases chunks
  {
    hide ErrorFromMetadata;
    if chunks == [] {
    } else {
      var h := HandleChunk(decode, c, chunks[0]);
      if !h.threw {
        HandleChunksUnread(decode, h.client, chunks[1..]);
      }
    }
  }

  lemma HasSuccessConcat(fs: seq<WireFrame>, gs: seq<WireFrame>)
    ensures HasSuccess(fs) || HasSuccess(gs) ==> HasSuccess(fs + gs)
  {
    if HasSuccess(fs) {
      var i :| 0 <= i < |fs| && IsSuccess(fs[i]);
      assert IsSuccess((fs + gs)[i]);
    } else if HasSuccess(gs) {
      var i :| 0 <= i < |gs| && IsSuccess(gs[i]);
      assert IsSuccess((fs + gs)[|fs| + i]);
    }
  }

  lemma {:induction false} OnChunksAccounted<M>(
      decode: Decoder<M>, c: Client<M>, pieces: seq<Bytes>, consumed: Bytes) returns (next: Bytes)
    requires Accounted(c, consumed)
    ensures var d := OnChunks(decode, c, pieces).client;
            Accounted(d, next) && consumed + c.unread + FedPieces(decode, c, pieces) == next + d.unread
    decreases pieces
  {
    hide OnChunk, Accounted;
    if pieces == [] {
      next := consumed;
      assert consumed + c.unread + [] == consumed + c.unread;
    } else {
      var h := OnChunk(decode, c, pieces[0]);
      next := OnChunkAccounted(decode, c, pieces[0], consumed);
      if h.threw {
        assert pieces[0] + [] == pieces[0];
      } else {
        var before, more := next, FedPieces(decode, h.client, pieces[1..]);
        next := OnChunksAccounted(decode, h.client, pieces[1..], before);
        assert consumed + c.unread + (pieces[0] + more) == consumed + c.unread + pieces[0] + more;
      }
    }
  }

  /** Emitting an event, or finishing, consumes nothing. */
  lemma EmitAccounted<M>(c: Client<M>, state: State, e: ClientEvent<M>, consumed: Bytes)
    requires Accounted(c, consumed)
    requires state == TrailersReceived ==> c.state == TrailersReceived
    requires e.Complete? ==> c.state == TrailersReceived
    ensures Accounted(Emit(c.(state := state), e), consumed)
  {
    hide Milestones, HasSuccess, Frames, Tail;
    MilestonesOfEmit(c.(state := state), e);
  }

  lemma FinishAccounted<M>(c: Client<M>, consumed: Bytes)
    requires Accounted(c, consumed)
    ensures Accounted(Finish(c), consumed) && Finish(c).unread == c.unread
  {
    hide Accounted;
    if c.state == TrailersReceived {
      EmitAccounted(c, IsComplete, Complete, consumed);
    } else {
      EmitAccounted(c, c.state, Error(RpcError(Unavailable, None, None)), consumed);
    }
  }

  lemma SettleAccounted<M>(
      decode: Decoder<M>, c: Client<M>, outcome: HeaderOutcome, consumed: Bytes) returns (next: Bytes)
    requires Accounted(c, consumed)
    ensures var d := OnHeadersSettled(decode, c, outcome);
            Accounted(d, next) && consumed + c.unread + FedBy(decode, c, HeadersSettled(outcome)) == next + d.unread
  {
    hide OnChunks, FedPieces, Milestones, HasSuccess, Frames, Tail;
    next := consumed;
    match outcome
    case GrpcFailure(e) =>
      EmitAccounted(c.(transportCanceled := true), c.state, Error(e), consumed);
      assert consumed + c.unread + [] == consumed + c.unread;
    case HeaderFailure(e) =>
      EmitAccounted(c, c.state, Error(e), consumed);
      assert consumed + c.unread + [] == consumed + c.unread;
    case Decoded(context) =>
      var d := c.(context := Some(context));
      if c.state == Started || c.state == EndedBeforeReady {
        hide Accounted;
        assert Accounted(d, consumed) by { SameAccount(c, d, consumed); }
        EmitAccounted(d, IsReady, Ready, consumed);
        var ready := Emit(d.(state := IsReady), Ready);
        next := OnChunksAccounted(decode, ready, c.pending, consumed);
        var h := OnChunks(decode, ready, c.pending);
        EmitAccounted(h.client, h.client.state, Error(Exception), next);
        FinishAccounted(h.client, next);
      } else {
        EmitAccounted(d, c.state, Error(Exception), consumed);
        assert consumed + c.unread + [] == consumed + c.unread;
      }
  }

  lemma SameAccount<M>(c: Client<M>, d: Client<M>, consumed: Bytes)
    requires Accounted(c, consumed) && d.state == c.state && d.events == c.events
    ensures Accounted(d, consumed)
  {
  }

  lemma StepAccounted<M>(decode: Decoder<M>, c: Client<M>, input: Input, consumed: Bytes) returns (next: Bytes)
    requires Accounted(c, consumed)
    ensures var d := Step(decode, c, input);
            Accounted(d, next) && consumed + c.unread + FedBy(decode, c, input) == next + d.unread
  {
    hide OnChunk, OnHeadersSettled, Finish, Milestones, HasSuccess, Frames, Tail, FedPieces;
    next := consumed;
    assert consumed + c.unread + [] == consumed + c.unread;
    match input
    case Start(transport) =>
      if c.state == Initial && transport.Some? {
        EmitAccounted(c, HasError, Error(ClientTransportError(transport.value)), consumed);
      }
    case Connected =>
    case ConnectFailed(reason) =>
      EmitAccounted(c.(awaiting := false), HasError, Error(RequestContextError(reason)), consumed);
    case HeadersSettled(outcome) =>
      next := SettleAccounted(decode, c, outcome, consumed);
    case Piece(bytes) =>
      if c.state == IsReady {
        next := OnChunkAccounted(decode, c, bytes, consumed);
      }
    case End(error) =>
      if error.Some? {
        EmitAccounted(c, HasError, Error(ErrorOfTransport(error.value)), consumed);
      }
      FinishAccounted(c, consumed);
    case Cancel =>
      var canceled := c.(transportCanceled := c.transportCanceled || c.state == Started);
      EmitAccounted(canceled, IsCanceled, Event.Canceled, consumed);
  }

  lemma {:induction false} RunAccounted<M>(
      decode: Decoder<M>, c: Client<M>, inputs: seq<Input>, consumed: Bytes) returns (next: Bytes)
    requires Accounted(c, consumed)
    ensures var d := Run(decode, c, inputs);
            Accounted(d, next) && consumed + c.unread + Fed(decode, c, inputs) == next + d.unread
    decreases inputs
  {
    hide Accounted, Step, FedBy;
    if inputs == [] {
      next := consumed;
      assert consumed + c.unread + [] == consumed + c.unread;
    } else {
      var d := Step(decode, c, inputs[0]);
      var before := StepAccounted(decode, c, inputs[0], consumed);
      next := RunAccounted(decode, d, inputs[1..], before);
      var now, more := FedBy(decode, c, inputs[0]), Fed(decode, d, inputs[1..]);
      assert consumed + c.unread + (now + more) == consumed + c.unread + now + more;
    }
  }

  /**
   * Over any calls and callbacks, `complete` is emitted only once the bytes handed to the parser
   * hold a trailer frame that reports no error.
   */
  lemma CompleteNeedsSuccess<M>(decode: Decoder<M>, inputs: seq<Input>)
    ensures Complete in Run(decode, NewClient<M>(), inputs).events
        ==> HasSuccess(Frames(Fed(decode, NewClient<M>(), inputs)))
  {
    hide Run, Fed, Frames, Tail, HasSuccess, Milestones;
    var c0 := NewClient<M>();
    NoFrames();
    MilestoneIn(c0.events, Complete);
    var consumed := RunAccounted(decode, c0, inputs, []);
    var d := Run(decode, c0, inputs);
    MilestoneIn(d.events, Complete);
    var fed := Fed(decode, c0, inputs);
    assert [] + c0.unread + fed == fed;
    FramesConcat(consumed, d.unread);
    HasSuccessConcat(Frames(consumed), Frames([] + d.unread));
  }

  // Cancellation

  /** Nothing more than errors and repeated `canceled` events. */
  ghost predicate Silent<M>(c: Client<M>, d: Client<M>) {
    && c.events <= d.events
    && forall i :: |c.events| <= i < |d.events| ==> d.events[i].Error? || d.events[i].Canceled?
  }

  predicate Over<M>(c: Client<M>) {
    c.state == IsCanceled || c.state == HasError
  }

  lemma StepAfterCancel<M>(decode: Decoder<M>, c: Client<M>, input: Input)
    requires Over(c) && !input.Connected?
    ensures Over(Step(decode, c, input)) && Silent(c, Step(decode, c, input))
    ensures !c.awaiting ==> !Step(decode, c, input).awaiting
  {
    hide OnChunk, GetReady, ErrorOfTransport;
  }

  lemma {:induction false} RunAfterCancel<M>(decode: Decoder<M>, c: Client<M>, inputs: seq<Input>)
    requires Over(c) && !c.awaiting && PossibleRun(decode, c, inputs)
    ensures Silent(c, Run(decode, c, inputs))
    decreases inputs
  {
    hide Step;
    if inputs == [] {
    } else {
      StepAfterCancel(decode, c, inputs[0]);
      RunAfterCancel(decode, Step(decode, c, inputs[0]), inputs[1..]);
    }
  }

  /** Whatever may happen after the cancel, neither `ready` nor a message nor `complete` is emitted. */
  ghost predicate CancelIsFinal<M>(decode: Decoder<M>, c: Client<M>) {
    var canceled := Step(decode, c, Cancel);
    forall inputs :: PossibleRun(decode, canceled, inputs) ==> Silent(canceled, Run(decode, canceled, inputs))
  }

  /**
   * A cancel, in any state and however often repeated, is final exactly when the request context
   * is not awaited: its arrival overwrites the canceled state.
   */
  lemma CancelIsFinalIff<M>(decode: Decoder<M>, c: Client<M>)
    ensures CancelIsFinal(decode, c) <==> !c.awaiting
  {
    var canceled := Step(decode, c, Cancel);
    if c.awaiting {
      var inputs := CancelOverwritten(decode, c);
      assert !Silent(canceled, Run(decode, canceled, inputs));
    } else {
      forall inputs | PossibleRun(decode, canceled, inputs)
        ensures Silent(canceled, Run(decode, canceled, inputs))
      {
        RunAfterCancel(decode, canceled, inputs);
      }
    }
  }

  lemma CancelOverwritten<M>(decode: Decoder<M>, c: Client<M>) returns (inputs: seq<Input>)
    requires c.awaiting
    ensures var canceled := Step(decode, c, Cancel);
            var d := Run(decode, canceled, inputs);
            && PossibleRun(decode, canceled, inputs)
            && |d.events| > |canceled.events| && d.events[|canceled.events|] == Ready
  {
    hide OnChunks, Milestones;
    var context: Context := map[];
    var canceled := Step(decode, c, Cancel);
    var settle := HeadersSettled(Decoded(context));
    var started := canceled.(state := Started, awaiting := false);
    inputs := [Connected] + ([settle] + []);
    PossibleFirst(decode, started, settle, []);
    PossibleFirst(decode, canceled, Connected, [settle] + []);
    var ready := Emit(started.(context := Some(context), state := IsReady), Ready);
    OnChunksExtends(decode, ready, started.pending);
  }

  lemma PossibleFirst<M>(decode: Decoder<M>, c: Client<M>, input: Input, inputs: seq<Input>)
    requires Possible(c, input) && PossibleRun(decode, Step(decode, c, input), inputs)
    ensures PossibleRun(decode, c, [input] + inputs)
    ensures Run(decode, c, [input] + inputs) == Run(decode, Step(decode, c, input), inputs)
  {
    hide Step, Possible;
    assert ([input] + inputs)[1..] == inputs;
  }

  /** Two cancels while the request is awaited do not keep the stream from becoming ready. */
  lemma RepeatedCancel<M>(decode: Decoder<M>, context: Context)
    ensures var inputs := [Start(None), Cancel, Cancel, Connected, HeadersSettled(Decoded(context))];
            && PossibleRun(decode, NewClient<M>(), inputs)
            && Run(decode, NewClient<M>(), inputs).events == [Event.Canceled, Event.Canceled, Ready]
  {
    hide OnChunk;
    var settle := HeadersSettled(Decoded(context));
    var c0 := NewClient<M>();
    var waiting := Step(decode, c0, Start(None));
    var once := Step(decode, waiting, Cancel);
    var twice := Step(decode, once, Cancel);
    var started := Step(decode, twice, Connected);
    var ready := Step(decode, started, settle);
    assert ready.events == [Event.Canceled, Event.Canceled, Ready];
    PossibleFirst(decode, started, settle, []);
    PossibleFirst(decode, twice, Connected, [settle]);
    PossibleFirst(decode, once, Cancel, [Connected, settle]);
    PossibleFirst(decode, waiting, Cancel, [Cancel, Connected, settle]);
    PossibleFirst(decode, c0, Start(None), [Cancel, Cancel, Connected, settle]);
    assert [settle] + [] == [settle];
    assert [Connected] + [settle] == [Connected, settle];
    assert [Cancel] + [Connected, settle] == [Cancel, Connected, settle];
    assert [Cancel] + [Cancel, Connected, settle] == [Cancel, Cancel, Connected, settle];
    assert [Start(None)] + [Cancel, Cancel, Connected, settle] == [Start(None), Cancel, Cancel, Connected, settle];
  }

  // The transport, and failures without a response

  /** Some cancel is taken while the request is under way, or the headers report a gRPC error. */
  predicate StopsTransport<M>(decode: Decoder<M>, c: Client<M>, inputs: seq<Input>)
    decreases inputs
  {
    inputs != [] &&
    (|| (inputs[0].Cancel? && c.state == Started)
     || (inputs[0].HeadersSettled? && inputs[0].outcome.GrpcFailure?)
     || StopsTransport(decode, Step(decode, c, inputs[0]), inputs[1..]))
  }

  lemma StepTransport<M>(decode: Decoder<M>, c: Client<M>, input: Input)
    ensures Step(decode, c, input).transportCanceled <==>
            || c.transportCanceled
            || (input.Cancel? && c.state == Started)
            || (input.HeadersSettled? && input.outcome.GrpcFailure?)
  {
    hide OnChunk, OnChunks;
    match input
    case Piece(bytes) =>
      OnChunkExtends(decode, c, bytes);
    case HeadersSettled(outcome) =>
      if outcome.Decoded? {
        OnChunksExtends(decode, Emit(c.(context := Some(outcome.context), state := IsReady), Ready), c.pending);
      }
    case _ =>
  }

  /**
   * Over all runs, the transport is canceled exactly when a cancel was taken in the started state
   * or the response headers reported a gRPC error.
   */
  lemma {:induction false} TransportCanceledIff<M>(decode: Decoder<M>, c: Client<M>, inputs: seq<Input>)
    ensures Run(decode, c, inputs).transportCanceled <==> c.transportCanceled || StopsTransport(decode, c, inputs)
    decreases inputs
  {
    hide Step;
    if inputs == [] {
    } else {
      StepTransport(decode, c, inputs[0]);
      TransportCanceledIff(decode, Step(decode, c, inputs[0]), inputs[1..]);
    }
  }

  /** A stream without a transport, or without a request context, reports why, and then an end adds nothing. */
  lemma FailedStart<M>(decode: Decoder<M>, reason: string, end: Option<TransportError>)
    ensures var c := Run(decode, NewClient<M>(), [Start(Some(reason))]);
            c.events == [Error(ClientTransportError(reason))] && Step(decode, c, End(end)) == c
    ensures var c := Run(decode, NewClient<M>(), [Start(None), ConnectFailed(reason)]);
            c.events == [Error(RequestContextError(reason))] && Step(decode, c, End(end)) == c
  {
    var c0 := NewClient<M>();
    PossibleFirst(decode, c0, Start(Some(reason)), []);
    assert [Start(Some(reason))] + [] == [Start(Some(reason))];
    PossibleFirst(decode, Step(decode, c0, Start(None)), ConnectFailed(reason), []);
    PossibleFirst(decode, c0, Start(None), [ConnectFailed(reason)]);
    assert [ConnectFailed(reason)] + [] == [ConnectFailed(reason)];
    assert [Start(None)] + [ConnectFailed(reason)] == [Start(None), ConnectFailed(reason)];
  }

  /**
   * A transport that fails: the failure is the next event of any stream that has not failed yet, a
   * refused connection being an unavailable server; afterwards the stream has failed.
   */
  lemma TransportFails<M>(decode: Decoder<M>, c: Client<M>, code: string, text: string)
    ensures var e := TransportError(code, text);
            var d := Step(decode, c, End(Some(e)));
            && d.state == HasError
            && d.events == c.events
                  + if c.state == HasError then []
                    else if code == "ECONNREFUSED" then [Error(RpcError(Unavailable, Some(text), None))]
                    else [Error(TransportFailure(e))]
  {
    assert c.events + [] == c.events;
  }

  /** Headers that settle when nothing waits for them: ignored after a cancel or a failure, else an error. */
  lemma HeadersTooLate<M>(decode: Decoder<M>, c: Client<M>, context: Context)
    requires c.state != Started && c.state != EndedBeforeReady
    ensures var d := Step(decode, c, HeadersSettled(Decoded(context)));
            && d.state == c.state
            && d.events == c.events
                  + if c.state == IsCanceled || c.state == HasError then [] else [Error(Exception)]
  {
    assert c.events + [] == c.events;
  }
}
