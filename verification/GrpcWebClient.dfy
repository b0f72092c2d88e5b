/** The client stream: a state machine driven by the callbacks of the transport. */
module GrpcWebClient {
  import opened Wrappers
  import opened Wire
  import opened Metadata
  import opened GrpcErrors
  import opened ChunkParsing
  import opened Streams

  /** A decoded response context. */
  type Context = map<string, string>

  datatype Response<+M> = Response(response: M, context: Option<Context>)

  datatype TransportError = TransportError(code: string, text: string)

  datatype ClientError =
    | RpcError(errorType: RpcErrorType, message: Option<string>, context: Option<Context>)
    | HttpStatusError(status: int, context: Option<Context>)   // type and message come from a table
    | HeaderDecodingError(reason: string)
    | RequestContextError(reason: string)
    | ClientTransportError(reason: string)
    | TransportFailure(error: TransportError)
    | Exception                                        // thrown while `ready` runs, or by a wrong state

  type ClientEvent<+M> = Event<Response<M>, ClientError>

  type Decoder<M> = Bytes -> Option<M>

  datatype State =
    | Initial | WaitingForRequest | Started | IsReady | IsCanceled | HasError | TrailersReceived | IsComplete
    | EndedBeforeReady

  /** How the asynchronous decoding of the response headers settles. */
  datatype HeaderOutcome =
    | Decoded(context: Context)
    | GrpcFailure(error: ClientError)
    | HeaderFailure(error: ClientError)

  datatype Input =
    | Start(transport: Option<string>)          // `Some`: no transport, with the reason
    | Connected                                 // the request context is there, the request is sent
    | ConnectFailed(reason: string)
    | HeadersSettled(outcome: HeaderOutcome)
    | Piece(bytes: Bytes)
    | End(error: Option<TransportError>)
    | Cancel

  datatype Client<+M> = Client(
    state: State,
    awaiting: bool,             // the request context is still to come
    context: Option<Context>,
    transportCanceled: bool,
    pending: seq<Bytes>,
    unread: Bytes,
    events: seq<ClientEvent<M>>)

  /** The state after a piece of work, and whether it ended with an exception. */
  datatype Handled<+M> = Handled(client: Client<M>, threw: bool)

  function NewClient<M>(): Client<M> {
    Client(Initial, false, None, false, [], [], [])
  }

  function Emit<M>(c: Client<M>, e: ClientEvent<M>): Client<M> {
    c.(events := c.events + [e])
  }

  // The response headers

  function ReadHeaders(headers: Headers, status: int, decode: Headers -> Option<Context>): HeaderOutcome {
    if !(forall h :: h in headers ==> DecodeAll(h.values).Some?) then
      HeaderFailure(HeaderDecodingError("URI malformed"))
    else
      match decode(headers)
      case None => HeaderFailure(HeaderDecodingError("response context"))
      case Some(context) =>
        match ErrorFromMetadata(headers)
        case BadMessage => HeaderFailure(HeaderDecodingError("URI malformed"))
        case Failed(e) => GrpcFailure(RpcError(e.errorType, e.message, Some(context)))
        case NoError =>
          if status == 200 then Decoded(context) else HeaderFailure(HttpStatusError(status, Some(context)))
  }

  lemma {:induction false} GetIsDecodable(headers: Headers, key: string)
    requires forall h :: h in headers ==> DecodeAll(h.values).Some?
    ensures DecodeAll(Get(headers, key)).Some?
  {
    if headers == [] {
    } else {
      assert headers[0] in headers;
      assert forall h :: h in headers[1..] ==> h in headers;
      GetIsDecodable(headers[1..], key);
    }
  }

  /**
   * The response headers: the context is decoded exactly when all values and the context decode, no
   * error status stands there and the HTTP status is 200. An error status cancels the transport;
   * everything else is a failure, with the HTTP status when nothing else is wrong.
   */
  lemma HeadersMeaning(headers: Headers, status: int, decode: Headers -> Option<Context>)
    ensures var outcome, statuses := ReadHeaders(headers, status, decode), Get(headers, "grpc-status");
            var readable := (forall h :: h in headers ==> DecodeAll(h.values).Some?) && decode(headers).Some?;
            var fine := statuses == [] || ParseInt(statuses[0]) == Some(0);
            && (outcome.Decoded? <==> readable && fine && status == 200)
            && (outcome.Decoded? ==> Some(outcome.context) == decode(headers))
            && (outcome.GrpcFailure? <==> readable && !fine)
            && (outcome.GrpcFailure? ==>
                  var reading := ErrorFromMetadata(headers);
                  && reading.Failed?
                  && outcome.error == RpcError(reading.error.errorType, reading.error.message, decode(headers)))
            && (readable && fine && status != 200 ==>
                  outcome == HeaderFailure(HttpStatusError(status, decode(headers))))
            && (!readable ==> outcome.HeaderFailure? && outcome.error.HeaderDecodingError?)
  {
    hide ErrorFromMetadata, ParseInt, DecodeAll;
    ReadingMeaning(headers);
    if forall h :: h in headers ==> DecodeAll(h.values).Some? {
      GetIsDecodable(headers, GRPC_MESSAGE);
    }
  }

  // The steps

  function HandleChunk<M>(decode: Decoder<M>, c: Client<M>, chunk: Chunk): Handled<M> {
    match chunk
    case MessageChunk(data) =>
      (match decode(data)
       case None => Handled(c, true)
       case Some(m) => Handled(Emit(c, Message(Response(m, c.context))), false))
    case TrailersChunk(trailers) =>
      match ErrorFromMetadata(trailers)
      case BadMessage => Handled(c, true)
      case Failed(e) =>
        Handled(Emit(c.(state := HasError), Error(RpcError(e.errorType, e.message, c.context))), false)
      case NoError => Handled(c.(state := TrailersReceived), false)
  }

  function HandleChunks<M>(decode: Decoder<M>, c: Client<M>, chunks: seq<Chunk>): Handled<M>
    decreases chunks
  {
    if chunks == [] then Handled(c, false)
    else
      var h := HandleChunk(decode, c, chunks[0]);
      if h.threw then h else HandleChunks(decode, h.client, chunks[1..])
  }

  function OnChunk<M>(decode: Decoder<M>, c: Client<M>, bytes: Bytes): Handled<M> {
    var p := ParseOnce(c.unread + bytes);
    var c' := c.(unread := p.unread);
    if p.chunks == None then Handled(c', true) else HandleChunks(decode, c', p.chunks.value)
  }

  function OnChunks<M>(decode: Decoder<M>, c: Client<M>, pieces: seq<Bytes>): Handled<M>
    decreases pieces
  {
    if pieces == [] then Handled(c, false)
    else
      var h := OnChunk(decode, c, pieces[0]);
      if h.threw then h else OnChunks(decode, h.client, pieces[1..])
  }

  /** `end()`: a connection that closes without trailers is an unavailable server. */
  function Finish<M>(c: Client<M>): Client<M> {
    if c.state == TrailersReceived then Emit(c.(state := IsComplete), Complete)
    else if c.state != HasError then Emit(c, Error(RpcError(Unavailable, None, None)))
    else c
  }

  /** `ready()`, with the exceptions of the replay reported by the `catch` of the promise. */
  function GetReady<M>(decode: Decoder<M>, c: Client<M>): Client<M> {
    var h := OnChunks(decode, Emit(c.(state := IsReady), Ready), c.pending);
    if h.threw then Emit(h.client, Error(Exception))
    else if c.state == EndedBeforeReady then Finish(h.client)
    else h.client
  }

  function OnHeadersSettled<M>(decode: Decoder<M>, c: Client<M>, outcome: HeaderOutcome): Client<M> {
    match outcome
    case GrpcFailure(e) => Emit(c.(transportCanceled := true), Error(e))
    case HeaderFailure(e) => Emit(c, Error(e))
    case Decoded(context) =>
      var c' := c.(context := Some(context));
      match c.state
      case Started => GetReady(decode, c')
      case EndedBeforeReady => GetReady(decode, c')
      case IsCanceled => c'
      case HasError => c'
      case _ => Emit(c', Error(Exception))
  }

  const ECONNREFUSED := "ECONNREFUSED"

  function ErrorOfTransport(e: TransportError): ClientError {
    if e.code == ECONNREFUSED then RpcError(Unavailable, Some(e.text), None) else TransportFailure(e)
  }

  function OnEnd<M>(c: Client<M>, error: Option<TransportError>): Client<M> {
    if c.state == HasError then c
    else if error.Some? then Emit(c.(state := HasError), Error(ErrorOfTransport(error.value)))
    else if c.state == Started then c.(state := EndedBeforeReady)
    else Finish(c)
  }

  function Step<M>(decode: Decoder<M>, c: Client<M>, input: Input): Client<M> {
    match input
    case Start(transport) =>
      if c.state != Initial then c
      else if transport.Some? then Emit(c.(state := HasError), Error(ClientTransportError(transport.value)))
      else c.(state := WaitingForRequest, awaiting := true)
    case Connected => c.(state := Started, awaiting := false)
    case ConnectFailed(reason) => Emit(c.(state := HasError, awaiting := false), Error(RequestContextError(reason)))
    case HeadersSettled(outcome) => OnHeadersSettled(decode, c, outcome)
    case Piece(bytes) =>
      if c.state == Started then c.(pending := c.pending + [bytes])
      else if c.state == IsReady then OnChunk(decode, c, bytes).client
      else c
    case End(error) => OnEnd(c, error)
    case Cancel =>
      Emit(c.(state := IsCanceled, transportCanceled := c.transportCanceled || c.state == Started), Event.Canceled)
  }

  /** Whether the call that delivers the input ends with an exception. */
  predicate Throws<M>(decode: Decoder<M>, c: Client<M>, input: Input) {
    match input
    case Start(_) => c.state != Initial
    case Piece(bytes) =>
      (c.state == IsReady && OnChunk(decode, c, bytes).threw)
      || c.state in {Initial, WaitingForRequest, IsComplete, EndedBeforeReady, TrailersReceived}
    case _ => false
  }

  function Run<M>(decode: Decoder<M>, c: Client<M>, inputs: seq<Input>): Client<M>
    decreases inputs
  {
    if inputs == [] then c else Run(decode, Step(decode, c, inputs[0]), inputs[1..])
  }

  // The class

  ghost function Contents(pieces: seq<array<byte>>): seq<Bytes>
    reads pieces
  {
    if pieces == [] then [] else [pieces[0][..]] + Contents(pieces[1..])
  }

  lemma {:induction false} ContentsConcat(pieces: seq<array<byte>>, piece: array<byte>)
    ensures Contents(pieces + [piece]) == Contents(pieces) + [piece[..]]
  {
    if pieces == [] {
    } else {
      assert (pieces + [piece])[1..] == pieces[1..] + [piece];
      ContentsConcat(pieces[1..], piece);
    }
  }

  lemma {:induction false} ContentsIndex(pieces: seq<array<byte>>)
    ensures |Contents(pieces)| == |pieces|
    ensures forall i :: 0 <= i < |pieces| ==> Contents(pieces)[i] == pieces[i][..]
  {
    if pieces == [] {
    } else {
      ContentsIndex(pieces[1..]);
    }
  }

  class GrpcWebStream<M> {
    const decodeMessage: Decoder<M>
    var state: State
    var awaitingRequest: bool
    var responseContext: Option<Context>
    var transportCanceled: bool
    var pendingChunkBytes: seq<array<byte>>
    const chunkParser: ChunkParser
    var emitted: seq<ClientEvent<M>>

    ghost predicate Valid()
      reads this, chunkParser
    {
      chunkParser.Valid()
    }

    ghost function Abs(): Client<M>
      reads this, chunkParser, chunkParser.buffer, pendingChunkBytes
      requires Valid()
    {
      Client(state, awaitingRequest, responseContext, transportCanceled,
             Contents(pendingChunkBytes), chunkParser.Unread(), emitted)
    }

    constructor (decodeMessage: Decoder<M>)
      ensures Valid() && fresh(chunkParser) && Abs() == NewClient() && this.decodeMessage == decodeMessage
    {
      this.decodeMessage := decodeMessage;
      state, awaitingRequest, responseContext, transportCanceled := Initial, false, None, false;
      pendingChunkBytes, emitted := [], [];
      chunkParser := new ChunkParser();
    }

    method EmitEvent(e: ClientEvent<M>)
      requires Valid()
      modifies this`emitted
      ensures Valid() && Abs() == Emit(old(Abs()), e)
    {
      emitted := emitted + [e];
    }

    method StartStream(transport: Option<string>) returns (threw: bool)
      requires Valid()
      modifies this
      ensures Valid() && Abs() == Step(decodeMessage, old(Abs()), Start(transport))
      ensures threw == Throws(decodeMessage, old(Abs()), Start(transport))
    {
      threw := state != Initial;
      if threw {
        return;
      }
      state := WaitingForRequest;
      if transport.Some? {
        state := HasError;
        EmitEvent(Error(ClientTransportError(transport.value)));
      } else {
        awaitingRequest := true;
      }
    }

    method RequestContextProvided()
      requires Valid()
      modifies this
      ensures Valid() && Abs() == Step(decodeMessage, old(Abs()), Connected)
    {
      state, awaitingRequest := Started, false;
    }

    method RequestContextFailed(reason: string)
      requires Valid()
      modifies this
      ensures Valid() && Abs() == Step(decodeMessage, old(Abs()), ConnectFailed(reason))
    {
      state, awaitingRequest := HasError, false;
      EmitEvent(Error(RequestContextError(reason)));
    }

    method CancelStream()
      requires Valid()
      modifies this
      ensures Valid() && Abs() == Step(decodeMessage, old(Abs()), Cancel)
    {
      if state == Started {
        transportCanceled := true;
      }
      state := IsCanceled;
      EmitEvent(Event.Canceled);
    }

    /** The transport delivers the headers and their decoding settles. */
    method HeadersReceived(headers: Headers, status: int, decodeContext: Headers -> Option<Context>)
      requires Valid()
      modifies this, chunkParser
      ensures Valid()
      ensures Abs() == Step(decodeMessage, old(Abs()), HeadersSettled(ReadHeaders(headers, status, decodeContext)))
    {
      hide GetReady, ReadHeaders;
      match ReadHeaders(headers, status, decodeContext)
      case GrpcFailure(e) =>
        transportCanceled := true;
        EmitEvent(Error(e));
      case HeaderFailure(e) =>
        EmitEvent(Error(e));
      case Decoded(context) =>
        responseContext := Some(context);
        match state {
          case Started =>
            BecomeReady();
          case EndedBeforeReady =>
            BecomeReady();
          case IsCanceled =>
          case HasError =>
          case _ =>
            EmitEvent(Error(Exception));
        }
    }

    method BecomeReady()
      requires Valid()
      modifies this, chunkParser
      ensures Valid() && Abs() == GetReady(decodeMessage, old(Abs()))
    {
      hide OnChunks, Finish, Emit;
      var endedBeforeReady := state == EndedBeforeReady;
      state := IsReady;
      EmitEvent(Ready);
      var threw := ReplayPending();
      if threw {
        EmitEvent(Error(Exception));
      } else if endedBeforeReady {
        EndStream();
      }
    }

    /** The loop of `ready()`. */
    method ReplayPending() returns (threw: bool)
      requires Valid()
      modifies this`state, this`emitted, chunkParser
      ensures Valid()
      ensures Handled(Abs(), threw) == OnChunks(decodeMessage, old(Abs()), old(Abs()).pending)
    {
      hide OnChunk;
      ghost var before := Abs();
      ContentsIndex(pendingChunkBytes);
      for i := 0 to |pendingChunkBytes|
        invariant Valid() && Abs().pending == before.pending
        invariant OnChunks(decodeMessage, before, before.pending)
               == OnChunks(decodeMessage, Abs(), before.pending[i..])
      {
        ghost var rest := before.pending[i..];
        ContentsIndex(pendingChunkBytes);
        assert rest[0] == pendingChunkBytes[i][..] && rest[1..] == before.pending[i + 1..];
        threw := ReceiveChunk(pendingChunkBytes[i]);
        if threw {
          return;
        }
      }
      threw := false;
    }

    method ReceiveChunk(chunkBytes: array<byte>) returns (threw: bool)
      requires Valid()
      modifies this`state, this`emitted, chunkParser
      ensures Valid()
      ensures Handled(Abs(), threw) == OnChunk(decodeMessage, old(Abs()), chunkBytes[..])
      ensures pendingChunkBytes == old(pendingChunkBytes)
      ensures Contents(pendingChunkBytes) == old(Contents(pendingChunkBytes))
    {
      hide ParseOnce, ErrorFromMetadata;
      var parsed := chunkParser.Parse(chunkBytes, false);
      if parsed == None {
        return true;
      }
      var chunks := parsed.value;
      ghost var before := Abs();
      for i := 0 to |chunks|
        invariant Valid() && chunkParser.Unread() == before.unread
        invariant HandleChunks(decodeMessage, before, chunks) == HandleChunks(decodeMessage, Abs(), chunks[i..])
      {
        assert chunks[i..][1..] == chunks[i + 1..];
        match chunks[i]
        case MessageChunk(data) =>
          var response := decodeMessage(data);
          if response == None {
            return true;
          }
          EmitEvent(Message(Response(response.value, responseContext)));
        case TrailersChunk(trailers) =>
          match ErrorFromMetadata(trailers) {
            case BadMessage =>
              return true;
            case Failed(error) =>
              state := HasError;
              EmitEvent(Error(RpcError(error.errorType, error.message, responseContext)));
            case NoError =>
              state := TrailersReceived;
          }
      }
      threw := false;
    }

    method PieceReceived(chunkBytes: array<byte>) returns (threw: bool)
      requires Valid()
      modifies this, chunkParser
      ensures Valid() && Abs() == Step(decodeMessage, old(Abs()), Piece(chunkBytes[..]))
      ensures threw == Throws(decodeMessage, old(Abs()), Piece(chunkBytes[..]))
    {
      hide OnChunk;
      threw := false;
      match state
      case Started =>
        ContentsConcat(pendingChunkBytes, chunkBytes);
        pendingChunkBytes := pendingChunkBytes + [chunkBytes];
      case IsReady =>
        threw := ReceiveChunk(chunkBytes);
      case IsCanceled =>
      case HasError =>
      case _ =>
        threw := true;
    }

    method EndStream()
      requires Valid()
      modifies this`state, this`emitted
      ensures Valid() && Abs() == Finish(old(Abs()))
    {
      if state == TrailersReceived {
        state := IsComplete;
        EmitEvent(Complete);
      } else if state != HasError {
        EmitEvent(Error(RpcError(Unavailable, None, None)));
      }
    }

    method TransportEnded(error: Option<TransportError>)
      requires Valid()
      modifies this
      ensures Valid() && Abs() == Step(decodeMessage, old(Abs()), End(error))
    {
      if state == HasError {
        return;
      }
      if error.Some? {
        state := HasError;
        if error.value.code == ECONNREFUSED {
          EmitEvent(Error(RpcError(Unavailable, Some(error.value.text), None)));
        } else {
          EmitEvent(Error(TransportFailure(error.value)));
        }
      } else if state == Started {
        state := EndedBeforeReady;
      } else {
        EndStream();
      }
    }
  }
}
