# A verified model of rpc_ts over gRPC-Web

rpc_ts carries unary calls and server streams over gRPC-Web. This project models the wire path and the
stream state machines above it, and proves what a caller can rely on: the bytes a handler writes come
out of the client as the same messages and the same ending, for every split of the bytes and every
moment at which the asynchronous header decoding settles; retried streams are the concatenation their
documentation announces, minus a stated exception; promises resolve exactly when they should.

Classes carry the fields and loops of the source's classes. Every method is proved to take the abstract
state one step of a specification function; the theorems are about all runs of these functions.

| file | models |
|---|---|
| `Wire.dfy` | frames: flag byte, 32-bit big-endian length, payload; `encodeFrame` |
| `HeaderValues.dfy` | percent-encoding of UTF-8, as in section 2.1 of RFC 3986 and section 3 of RFC 3629 |
| `Metadata.dfy` | header maps, the trailer block and its decoders |
| `GrpcErrors.dfy` | RPC errors as gRPC statuses and metadata |
| `ChunkParsing.dfy` | `ChunkParser`: buffer, cursor, loop |
| `Streams.dfy` | stream events and traces |
| `GrpcWebClient.dfy` | `GrpcWebStream`: nine states, pending pieces, parser, emitted events |
| `ClientFrames.dfy` | what the client makes of frames and of pieces replayed |
| `ClientRuns.dfy`, `ClientTiming.dfy`, `ClientSafety.dfy`, `ClientTraces.dfy` | laws over runs of the client |
| `GrpcWebServer.dfy` | `processServerStream`, `processUnary`, the response object |
| `Delivery.dfy` | server, wire and client composed |
| `Backoff.dfy`, `StreamRetrier.dfy` | `getBackoffMs`, `RetryingStreamImpl` |
| `Promises.dfy` | `Service.call`, `streamAsPromise`, `transformStream`, `ArrayStream` |
| `RetriedStreams.dfy` | client streams as the attempts of a retrying stream, up to the promise |

`dafny verify dfyconfig.toml` checks the whole project.

## Assumptions

- Listeners do not call back into the stream, and a callback is one atomic step; a sleep is a recorded duration.
- The transport calls back only after it is started, and the request context arrives once, while it is awaited: `ClientSafety.Possible`. Laws about one response begin when the request is sent (`ClientRuns.StartedClient`); `ClientRuns.Connecting` shows how that state is reached.
- JSON is an abstract pair of partial functions; `Delivery.Inverse` states that decoding inverts encoding.
- `BrowserHeaders` is not part of the repository. `Metadata.ParseHeaders` is a reference decoder (CRLF-separated lines, first colon, trimmed key and value, lower-case key) that agrees with the expectation in src/protocol/grpc_web/__tests__/text_json_codec.test.ts:38-57.
- A write on an ended HTTP response leaves the body alone.
- Strings are sequences of Unicode scalar values.

## Where the code differs from what is said about it

- `retryStream` is documented with a stream made by `streamFromArray` (src/client/stream_retrier.ts:35-38). Such a stream never emits `ready`, so the filter at line 138 drops all its messages: `Promises.RetriedArraysDeliverNothing`. The output is the full concatenation exactly under the condition of `StreamRetrier.AllMessagesIffReadyFirst`.
- A second `onReady` builds a protocol error without throwing it (src/protocol/grpc_web/server/server.ts:310-314) and is accepted: `GrpcWebServer.RepeatedReadyIsIdle` says that it changes neither the status, nor the promise, nor what is written.
- A handler that returns after one of its callbacks failed writes a success trailer before the error trailer, and `onMessage` still writes between the return of the handler and the end of the response (server.ts:386-403): `GrpcWebServer.SwallowedFailure` is such a run, `GrpcWebServer.WellShapedIffOrderly` gives the exact condition.
- The promise of a server stream may be rejected while the client sees `complete`: `Delivery.RejectedYetComplete`. `Delivery.TruthfulIffOrderly` says for which handlers every client sees the truth.
- `cancel()` is said to emit `canceled` and stop the stream (src/client/stream.ts:46). On a client stream whose request context is still awaited, the cancel is undone by client.ts:288, however often it is repeated: `ClientSafety.CancelIsFinalIff`, `ClientSafety.RepeatedCancel`. A retrying stream obeys exactly while its loop is under way: `StreamRetrier.CancelEndsRun`.
- The retrying stream forgets its current stream only when the loop goes on after its `await` (stream_retrier.ts:199). A cancel before that reaches a stream that has ended, and a second terminal event is emitted: `StreamRetrier.TwoTerminalEvents`. `StreamRetrier.SingleTerminalEvent` and `StreamRetrier.LateCancelsRepeat` give the exact conditions.
- A client stream that is canceled still reports the end of its transport as an error (client.ts:409-413), and a retrying stream passes it on after `canceled`: `RetriedStreams.CancelThenEnd`. It may also become ready afterwards: `ClientTraces.CanceledYetReady`. `ClientTraces.TraceAfterCancel` says, for every client and whatever follows, when the events form a well-formed trace; `ClientTraces.FormsTraceIff` says it for streams that are not canceled.
- An exception while a piece is taken in becomes an `error` event only when the piece was pending; otherwise it escapes to the transport, and the frame is lost without an event, even before a `complete`: `ClientTiming.UndecodableMessage`. `ClientTiming.CompleteMeaning` says when `complete` is emitted and when nothing is lost, `ClientTiming.EscapesIff` when an exception escapes.
- A frame in a piece after the trailer is dropped or taken in depending on the header decoding (`ClientTiming.PieceAfterTrailer`), so that even `complete` may follow `error` (`ClientTiming.CompleteAfterError`). `ClientTiming.TimingIndependenceIff` gives the exact condition, for all pieces.
- When the text of a trailer is refused, `parse` throws and loses the messages it found in the same call; messages of earlier calls have been returned: `ChunkParsing.SplitIndependence`.

## Model

| member | source | states |
|---|---|---|
| `Wire.EncodeFrame` | src/protocol/grpc_web/server/server.ts:538-546 | the filled buffer is the frame of the flag byte and payload; throws exactly when the length does not fit 32 bits |
| `Wire.FrameLayout` | src/protocol/grpc_web/server/server.ts:538-546 | the layout of a frame byte by byte: flags, big-endian length, payload; the most significant bit of the flags marks a trailer |
| `Wire.LengthIsBigEndian` | src/protocol/grpc_web/client/private/chunk_parser.ts:66-68 | four length bytes are written and read in big-endian order |
| `Wire.DecodeEncode` | src/protocol/grpc_web/server/server.ts:538-546 | reading the concatenation of printed frames and an incomplete tail gives back these frames and that tail |
| `Wire.EncodeDecode` | src/protocol/grpc_web/client/private/chunk_parser.ts:136-176 | any byte string is the printed form of its frames followed by its tail |
| `Wire.FramesConcat` | src/protocol/grpc_web/client/private/chunk_parser.ts:119-134 | bytes that arrive later only extend the frames read so far, with the kept tail in front of them |
| `ChunkParsing.SliceUint8Array` | src/protocol/grpc_web/client/private/chunk_parser.ts:78-95 | a fresh copy of the range |
| `ChunkParsing.ChunkParser.Refill` | src/protocol/grpc_web/client/private/chunk_parser.ts:119-134 | the unread bytes become the old ones followed by the new ones |
| `ChunkParsing.ChunkParser.TakeFrame` | src/protocol/grpc_web/client/private/chunk_parser.ts:137-165 | moves past the first frame if and only if it is complete |
| `ChunkParsing.ChunkParser.Parse` | src/protocol/grpc_web/client/private/chunk_parser.ts:112-177 | result and unread bytes of one call, for every state of buffer and cursor |
| `ChunkParsing.ParseMeaning` | src/protocol/grpc_web/client/private/chunk_parser.ts:136-176 | a call consumes the frames up to the first trailer and returns exactly their chunks |
| `ChunkParsing.Conservation` | src/protocol/grpc_web/client/private/chunk_parser.ts:119-176 | on arbitrary bytes: consumed prefix plus unread bytes is everything fed, and the chunks are the frames of that prefix |
| `ChunkParsing.SplitIndependence` | src/protocol/grpc_web/client/private/chunk_parser.ts:112-177 | calls over any split return, throw and retain what one call over the whole does; when it throws, the calls before the last have returned the frames complete by then |
| `HeaderValues.HeaderValueRoundTrip` | src/protocol/grpc_web/private/headers.ts:13-19 | decoding an encoded header value gives back any Unicode text |
| `HeaderValues.EncodedValueIsPlain` | src/protocol/grpc_web/private/headers.ts:13-15 | encoded text has no blank, line break, colon or non-ASCII character |
| `HeaderValues.EncodedCharacters` | src/protocol/grpc_web/private/headers.ts:13-15 | which characters stay as they are, and that all others become upper-case percent-encoded UTF-8, character by character |
| `HeaderValues.Utf8Layout` | src/protocol/grpc_web/private/headers.ts:13-15 | the UTF-8 bytes of every character, bit by bit |
| `HeaderValues.PlainTextStays` | src/protocol/grpc_web/private/headers.ts:17-19 | a text without a percent sign decodes to itself |
| `HeaderValues.PercentMeaning` | src/protocol/grpc_web/private/headers.ts:17-19 | a percent sign begins the bytes of exactly one character, or the text is malformed |
| `Metadata.EncodeTrailer` | src/protocol/grpc_web/common/json_codec.ts:37-48 | the nested loops print the trailer payload of the header map |
| `Metadata.TrailerTextShape` | src/protocol/grpc_web/common/json_codec.ts:37-48 | the printed text by its laws: `key: value` for a value that is not blank, nothing otherwise, CRLF in between |
| `Metadata.ValuesLikeEntries` | src/protocol/grpc_web/common/json_codec.ts:39-46 | several values of a key print like several entries |
| `Metadata.TrimMeaning` | src/protocol/grpc_web/common/json_codec.ts:41-43 | trimming takes white space off both ends and nothing else |
| `Metadata.WhiteSpace` | src/protocol/grpc_web/common/json_codec.ts:41-43 | the characters that are trimmed |
| `Metadata.DecodeASCII` | src/protocol/grpc_web/client/private/chunk_parser.ts:34-43 | the text, or an exception exactly when some byte is not printable ASCII |
| `Metadata.AsciiBytes` | src/protocol/grpc_web/client/private/chunk_parser.ts:27-43 | the bytes let pass are 9, 10, 13 and 32 to 126, and each stands for its character |
| `Metadata.EncodeASCII` | src/protocol/grpc_web/client/private/chunk_parser.ts:45-55 | bytes that decode to the text, or an exception exactly when it is not printable ASCII |
| `Metadata.TrailerTextRoundTrip` | src/protocol/grpc_web/__tests__/text_json_codec.test.ts:38-58 | printing then reading a header map trims values and drops empty ones, nothing else |
| `Metadata.TrailerPayloadRoundTrip` | src/protocol/grpc_web/client/private/chunk_parser.ts:62-64 | the same through UTF-8 bytes and the client's ASCII decoder |
| `Metadata.HeaderLine` | src/protocol/grpc_web/client/private/chunk_parser.ts:62-64 | one line is read as a lower-case key and a value, whatever blanks stand around them |
| `GrpcErrors.TypeOfInverse` | src/protocol/grpc_web/private/grpc.ts:62-85 | the status tables are inverse on every error type |
| `GrpcErrors.ErrorMetadata` | src/protocol/grpc_web/private/grpc.ts:42-80 | the metadata of each error type, number by number, with the encoded message if there is one |
| `GrpcErrors.ReadingMeaning` | src/protocol/grpc_web/private/grpc.ts:88-103 | for all metadata: no error if and only if no status stands there or its number is 0; otherwise the type of that number, or unknown, with the decoded messages |
| `GrpcErrors.ParseIntMeaning` | src/protocol/grpc_web/private/grpc.ts:169-176 | the status is the number behind blanks and a sign, whatever follows it |
| `GrpcErrors.ParseDecimal` | src/protocol/grpc_web/private/grpc.ts:169-180 | the status number is read back from its decimal text |
| `GrpcErrors.GetMetadataFromGrpcWebError` | src/protocol/grpc_web/private/grpc.ts:134-149 | status always, message only when it is not empty |
| `GrpcErrors.ErrorMetadataRoundTrip` | src/protocol/grpc_web/private/grpc.ts:88-103 | the error read from metadata is the error written, an absent message becoming empty |
| `GrpcErrors.ErrorTrailerRoundTrip` | src/protocol/grpc_web/private/grpc.ts:134-149 | every error type and Unicode message survives trailer text, bytes, ASCII decoding and metadata parsing |
| `GrpcErrors.TransmittedError` | src/protocol/grpc_web/private/grpc.ts:106-131 | what is told of an error of a handler: the type and the transmitted message of an RPC error, an internal error otherwise |
| `GrpcWebClient.GrpcWebStream.StartStream` | src/protocol/grpc_web/client/client.ts:167-275 | the start, refused unless the stream is new; without a transport error the request context is then awaited |
| `GrpcWebClient.GrpcWebStream.RequestContextProvided` | src/protocol/grpc_web/client/client.ts:277-296 | the request context arrives: the stream is started, whatever happened to it meanwhile |
| `GrpcWebClient.GrpcWebStream.HeadersReceived` | src/protocol/grpc_web/client/client.ts:175-208 | the step taken when the header decoding settles, in each of the nine states |
| `GrpcWebClient.HeadersMeaning` | src/protocol/grpc_web/client/client.ts:318-351 | for all headers and statuses: the context exactly when everything decodes, no error status stands there and the HTTP status is 200; which failure otherwise |
| `GrpcWebClient.GrpcWebStream.PieceReceived` | src/protocol/grpc_web/client/client.ts:209-239 | the step taken on a piece, and when it throws |
| `GrpcWebClient.GrpcWebStream.ReceiveChunk` | src/protocol/grpc_web/client/client.ts:354-392 | the loop over parsed chunks, with decoding failures as exceptions |
| `GrpcWebClient.GrpcWebStream.ReplayPending` | src/protocol/grpc_web/client/client.ts:399-401 | the replay of the pending pieces |
| `GrpcWebClient.GrpcWebStream.BecomeReady` | src/protocol/grpc_web/client/client.ts:395-406 | ready, then the replay, then the postponed end |
| `GrpcWebClient.GrpcWebStream.TransportEnded` | src/protocol/grpc_web/client/client.ts:240-267 | the step taken at the end of the transport |
| `GrpcWebClient.GrpcWebStream.EndStream` | src/protocol/grpc_web/client/client.ts:409-422 | complete after trailers, otherwise one unavailable error unless already failed |
| `GrpcWebClient.GrpcWebStream.CancelStream` | src/protocol/grpc_web/client/client.ts:307-315 | canceled from any state; the transport is canceled only when started |
| `ClientFrames.OnChunkMeaning` | src/protocol/grpc_web/client/client.ts:354-392 | one call, for any bytes: the frames before the first that cannot be taken in take effect, none if the trailer text is refused, and it throws if and only if one cannot be taken in |
| `ClientFrames.OnChunksMeaning` | src/protocol/grpc_web/client/client.ts:399-401 | a replay of any pieces: the frames that take effect, and that it throws if and only if one of the frames read cannot be taken in |
| `ClientFrames.ReplayedSeen` | src/protocol/grpc_web/client/private/chunk_parser.ts:112-177 | up to the first trailer, calls over any pieces read the frames of the body; later pieces are read up to the next trailer each |
| `ClientRuns.ObserveMeaning` | src/protocol/grpc_web/client/client.ts:175-267 | for any pieces, any moment of header decoding and any end: the events, frame by frame, exceptions included |
| `ClientRuns.HeadersBeforeEnd` | src/protocol/grpc_web/client/client.ts:240-267 | when the headers settle before the end and the frames read can be taken in: exactly the events of these frames |
| `ClientRuns.MomentMeaning` | src/protocol/grpc_web/client/client.ts:209-266 | the same at every moment, for a clean end |
| `ClientRuns.TimingIndependence` | src/protocol/grpc_web/client/client.ts:209-217 | the events are the reference events of the body, for every split and every moment of header decoding |
| `ClientTiming.TimingIndependenceIff` | src/protocol/grpc_web/client/client.ts:395-406 | for all pieces: the moment is invisible if and only if the frames up to the first trailer can be taken in and those a replay reads later are successes, none after an error |
| `ClientTiming.TimingIndependenceIffClean` | src/protocol/grpc_web/client/client.ts:395-406 | when no piece follows the trailer: invisible if and only if every frame up to it can be taken in |
| `ClientTiming.EscapesIff` | src/protocol/grpc_web/client/client.ts:215-233 | for all pieces and every moment: an exception reaches the transport if and only if the headers settle before the end and the pieces that follow are awkward |
| `ClientTiming.EscapesIffUnclean` | src/protocol/grpc_web/client/client.ts:215-217 | when no piece follows the trailer and the replay does not throw: exactly when some frame cannot be taken in |
| `ClientTiming.CompleteMeaning` | src/protocol/grpc_web/client/client.ts:367-422 | for all pieces and every moment: when complete is emitted, and that nothing is lost if and only if every frame up to the first trailer can be taken in |
| `ClientTiming.PieceAfterTrailer` | src/protocol/grpc_web/client/client.ts:232-233 | an input at which the moment shows: a late message is dropped or delivered |
| `ClientTiming.CompleteAfterError` | src/protocol/grpc_web/client/client.ts:369-384 | an input at which the moment shows: a late success trailer adds `complete` behind `error` |
| `ClientTiming.UndecodableMessage` | src/protocol/grpc_web/client/client.ts:360-361 | an input at which the moment shows: an undecodable message is lost before `complete`, or an error before it, or the only error |
| `ClientRuns.TruncationSafety` | src/protocol/grpc_web/client/client.ts:413-420 | any strict prefix of a well-formed body gives ready, the complete messages and one unavailable error |
| `ClientRuns.HeaderFailureReported` | src/protocol/grpc_web/client/client.ts:318-351 | a failure found in the headers is reported for every moment, with the error of a failing transport as the only other event |
| `ClientRuns.FailureBeforeHeaders` | src/protocol/grpc_web/client/client.ts:199-201 | a transport failure before the headers settle hides the response |
| `ClientSafety.TransportFails` | src/protocol/grpc_web/client/client.ts:240-259 | a failing transport fails any stream that has not failed: a refused connection as an unavailable server, any other error as it is |
| `ClientSafety.FailedStart` | src/protocol/grpc_web/client/client.ts:269-301 | without a transport, or without a request context, the stream reports why, and an end adds nothing |
| `ClientSafety.HeadersTooLate` | src/protocol/grpc_web/client/client.ts:180-208 | headers decoded when nothing waits for them are ignored after a cancel or a failure, and an error otherwise |
| `ClientTiming.ThrowsMeaning` | src/protocol/grpc_web/client/client.ts:209-239 | which calls throw: a second start, a frame that cannot be taken in, a piece for a stream that can take none |
| `ClientSafety.ClientRunSafety` | src/protocol/grpc_web/client/client.ts:177-315 | over every possible history of a new stream: ready at most once, complete at most once and after it, no message before ready |
| `ClientSafety.CompleteNeedsSuccess` | src/protocol/grpc_web/client/client.ts:367-385 | over any calls and callbacks: complete only after a trailer frame without error status was parsed |
| `ClientSafety.CancelIsFinalIff` | src/protocol/grpc_web/client/client.ts:277-315 | after a cancel in any state, nothing but errors and cancels can follow, if and only if the request context is not awaited |
| `ClientSafety.RepeatedCancel` | src/protocol/grpc_web/client/client.ts:277-315 | an input at which two cancels are undone and `ready` follows |
| `ClientSafety.TransportCanceledIff` | src/protocol/grpc_web/client/client.ts:307-334 | over all runs: the transport is canceled if and only if a cancel was taken in the started state or the headers reported a gRPC error |
| `GrpcWebServer.ServerStream.ReadyCalled` | src/protocol/grpc_web/server/server.ts:307-335 | the step of `onReady` |
| `GrpcWebServer.ServerStream.MessageCalled` | src/protocol/grpc_web/server/server.ts:336-383 | the step of `onMessage`, with its five ways to fail |
| `GrpcWebServer.ServerStream.HandlerReturned` | src/protocol/grpc_web/server/server.ts:386-401 | a success trailer, then the promise resolves |
| `GrpcWebServer.ServerStream.HandlerThrew` | src/protocol/grpc_web/server/server.ts:402-402 | the promise is rejected, once |
| `GrpcWebServer.ServerStream.Conclude` | src/protocol/grpc_web/server/server.ts:404-449 | the error trailer or the end; an error that fits no frame becomes an internal one |
| `GrpcWebServer.ConformingRun` | src/protocol/grpc_web/server/server.ts:300-449 | message frames in call order, exactly one trailer, then the end |
| `GrpcWebServer.NoMessageBeforeReady` | src/protocol/grpc_web/server/server.ts:339-343 | no message frame before `onReady`, for arbitrary calls |
| `GrpcWebServer.FinishedIsFinal` | src/protocol/grpc_web/server/server.ts:369-373 | nothing is written after the response ended, and so after the error trailer |
| `GrpcWebServer.WellShapedIffOrderly` | src/protocol/grpc_web/server/server.ts:302-449 | for arbitrary calls: messages then exactly one trailer, if and only if the handler is orderly |
| `GrpcWebServer.SwallowedFailure` | src/protocol/grpc_web/server/server.ts:336-403 | an input at which the body has two trailers: a failed onMessage, then the return |
| `GrpcWebServer.RunFrames` | src/protocol/grpc_web/server/server.ts:336-401 | for arbitrary calls: what is written is the accepted messages in call order, with the success trailer right behind those before the return |
| `GrpcWebServer.RepeatedReadyIsIdle` | src/protocol/grpc_web/server/server.ts:307-335 | leaving out every onReady after the first changes neither status, promise nor frames, for any calls |
| `GrpcWebServer.PromiseMeaning` | src/protocol/grpc_web/server/server.ts:302-403 | for arbitrary calls: the promise is settled by the first return, error, or message that is early, too long or cannot be encoded |
| `GrpcWebServer.PrivateTextsStayPrivate` | src/protocol/grpc_web/server/server.ts:404-434 | handlers that differ in private error texts only write the same frames and send the same headers |
| `GrpcWebServer.PrivateTextsStayPrivateUnary` | src/protocol/grpc_web/server/server.ts:225-241 | the same for unary methods |
| `GrpcWebServer.OversizedError` | src/protocol/grpc_web/server/server.ts:225-260 | an error text that fits no frame is replaced by an internal error, in a trailer or in the headers |
| `GrpcWebServer.LateCallbacks` | src/protocol/grpc_web/server/server.ts:315-349 | callbacks after the end are refused |
| `GrpcWebServer.ProcessUnary` | src/protocol/grpc_web/server/server.ts:452-495 | one message and a success trailer, or the error in the response headers and no body |
| `Delivery.StreamDelivery` | src/protocol/grpc_web/server/server.ts:300-449 | end to end, from plain headers with HTTP status 200: ready, all messages in order, then complete or the server's error with its transmitted message |
| `Delivery.TruthfulIffOrderly` | src/protocol/grpc_web/server/server.ts:302-449 | end to end for arbitrary handlers: every client sees ready, the accepted messages and the real ending, if and only if the handler is orderly |
| `Delivery.EarlyDelivery` | src/protocol/grpc_web/server/server.ts:386-403 | end to end for arbitrary handlers: with early headers the client sees what precedes the first trailer |
| `Delivery.RejectedYetComplete` | src/protocol/grpc_web/server/server.ts:386-403 | an input at which the stream is rejected and the client sees complete |
| `Delivery.OkStatusCompletes` | src/protocol/grpc_web/private/grpc.ts:91-95 | messages and a trailer that states status 0 are observed as ready, the messages, complete |
| `Delivery.HeadersReport` | src/protocol/grpc_web/client/client.ts:322-350 | error metadata among decodable response headers is the outcome of decoding them |
| `Delivery.PlainHeadersOutcome` | src/protocol/grpc_web/client/client.ts:341-350 | plain headers are decoded to their context if and only if the HTTP status is 200 |
| `Delivery.UnaryAnswerDelivery` | src/protocol/grpc_web/server/server.ts:478-485 | end to end, from plain headers with HTTP status 200: the answer of a unary handler |
| `Delivery.UnaryErrorDelivery` | src/protocol/grpc_web/server/server.ts:225-241 | end to end: the error of a unary handler with its transmitted message, through the headers |
| `Delivery.PromiseDelivery` | src/client/service.ts:207-211 | end to end: the promise of a mapped server stream is the handler's list of messages, or its error |
| `Delivery.CallDelivery` | src/client/service.ts:116-162 | end to end: the promise of a unary call is the handler's answer |
| `Delivery.CallRejection` | src/client/service.ts:116-162 | end to end: when the handler or the encoding of its answer fails, the promise of a unary call is rejected with the transmitted error |
| `Delivery.UnaryFailures` | src/protocol/grpc_web/server/server.ts:452-495 | a unary call answered in the headers comes from an error of the handler or of the encoding of its answer |
| `Backoff.Nondecreasing` | src/client/backoff.ts:33-41 | waits never get shorter and stay at the cap |
| `Backoff.Schedule` | src/client/backoff.ts:33-41 | the schedule by its laws: the constant first, times the base each time, cut off by a positive cap |
| `Backoff.DefaultSchedule` | src/client/backoff.ts:22-27 | the default waits: 500, 1000, 2000, then 3000 for ever |
| `Backoff.TotalWaitCapped` | src/client/backoff.ts:37-39 | n waits add up to at most n times the cap |
| `Backoff.TotalWaitGeometric` | src/client/backoff.ts:34-36 | n waits add up to at most the geometric sum |
| `StreamRetrier.RetryingStreamImpl.StreamEvent` | src/client/stream_retrier.ts:130-169 | the step of each listener of an attempt, in every phase of the loop |
| `StreamRetrier.RetryingStreamImpl.SleepElapsed` | src/client/stream_retrier.ts:159-161 | the end of a sleep resolves the promise the loop awaits |
| `StreamRetrier.RetryingStreamImpl.NextTurn` | src/client/stream_retrier.ts:187-195 | the loop is left in a final state, otherwise a stream is opened |
| `StreamRetrier.RetryingStreamImpl.ContinueLoop` | src/client/stream_retrier.ts:196-200 | only the continuation after the await forgets the current stream and takes the next turn |
| `StreamRetrier.RetryingStreamImpl.CancelStream` | src/client/stream_retrier.ts:176-180 | cancel reaches the current stream, ended or not, until the loop has gone on |
| `StreamRetrier.RetryRefinesConcatenation` | src/client/stream_retrier.ts:130-200 | the output is the attempts joined, early messages dropped, errors reported with the failures since ready |
| `StreamRetrier.RetryDecision` | src/client/stream_retrier.ts:148-160 | an error leads to a backoff sleep if and only if the policy wants it retried and retries are left; otherwise it ends the stream |
| `StreamRetrier.LoopGoesOn` | src/client/stream_retrier.ts:159-200 | an elapsed sleep merely resolves the awaited promise; the continuation leaves the loop or opens exactly one stream |
| `StreamRetrier.ErrorsAreReported` | src/client/stream_retrier.ts:147-162 | over all runs: every error is reported with the failures since ready, as abandoned exactly when it may not be retried, and then emitted; the sleeps are those of the others |
| `StreamRetrier.StreamsOpened` | src/client/stream_retrier.ts:187-200 | over well-behaved streams: during an attempt one stream more than sleeps has been opened |
| `StreamRetrier.AllMessagesIffReadyFirst` | src/client/stream_retrier.ts:137-141 | all messages come through if and only if every attempt emits ready before its first message |
| `StreamRetrier.SingleTerminalEvent` | src/client/stream_retrier.ts:142-200 | over all runs, whatever the streams emit: one terminal event, last, exactly when the stream is done, if and only if nothing is late |
| `StreamRetrier.LateCancelsRepeat` | src/client/stream_retrier.ts:163-199 | over well-behaved streams: a trace, then one `canceled` per cancel between a settling event and its continuation; single if and only if there is none |
| `StreamRetrier.TwoTerminalEvents` | src/client/stream_retrier.ts:176-199 | inputs with two terminal events: two cancels, or complete and a cancel, in one tick |
| `StreamRetrier.FinishedIsFinal` | src/client/stream_retrier.ts:187-193 | once the loop is left, well-behaved streams keep it silent: nothing is emitted, slept or opened |
| `StreamRetrier.CancelEndsRun` | src/client/stream_retrier.ts:163-180 | a cancel emits `canceled` and ends the run, late cancels repeating it, if and only if an attempt, a sleep or a continuation is under way |
| `StreamRetrier.CancelBeforeStart` | src/client/stream_retrier.ts:176-184 | a stream canceled before its start stays silent |
| `StreamRetrier.AttemptBound` | src/client/stream_retrier.ts:148-160 | over well-behaved streams the counter stays within the retries allowed, which bounds the streams opened |
| `StreamRetrier.WaitBound` | src/client/stream_retrier.ts:159-159 | the sleeps since ready are the backoff schedule, within its bounds |
| `Promises.UnaryCall.Receive` | src/client/service.ts:129-160 | the step of each listener of a call |
| `Promises.CallResolves` | src/client/service.ts:116-162 | resolves with m if and only if the stream completes after the single message m; two messages are a protocol error |
| `Promises.CallOverRetry` | src/client/service.ts:385-407 | the same over a retrying stream that is done, late cancels included, counting the messages of all attempts |
| `Promises.StreamAsPromise.Receive` | src/client/stream.ts:204-218 | the step of each listener of a promise |
| `Promises.StreamMapLaw` | src/client/stream.ts:151-220 | the promise of a mapped stream: all values in order, or the earliest failure |
| `Promises.TransformMeaning` | src/client/stream.ts:151-183 | only messages are mapped; every other event passes through as it is |
| `Promises.StartArray` | src/client/stream.ts:107-117 | all messages, then the error or complete |
| `Promises.ArrayPromise` | src/client/stream.ts:107-117 | the promise of an array stream is the array, or the error |
| `Promises.RetriedArraysDeliverNothing` | src/client/stream_retrier.ts:35-38 | a retried array stream delivers none of its messages |
| `ClientTraces.TraceAfterCancel` | src/protocol/grpc_web/client/client.ts:277-315 | for every client and whatever follows: the events of a canceled stream form a trace if and only if it had not ended before and nothing that follows is loud |
| `ClientTraces.CanceledYetReady` | src/protocol/grpc_web/client/client.ts:277-315 | an input at which they form none: the request context arrives after the cancel |
| `ClientTraces.FormsTraceIff` | src/protocol/grpc_web/client/client.ts:175-267 | for every exchange: the events of a stream that is not canceled form a trace if and only if the condition `FormsTrace` holds of its frames, its moment and its end |
| `ClientTraces.CleanFormsTrace` | src/protocol/grpc_web/client/client.ts:354-422 | a response that can be taken in, complete or truncated, always does, with any end |
| `RetriedStreams.CancelThenEnd` | src/protocol/grpc_web/client/client.ts:409-420 | an input at which a retrying stream emits an error behind `canceled` |
| `RetriedStreams.RetriedDelivery` | src/client/service.ts:385-407 | end to end over retries: for any exchanges that form traces, the retrying stream emits the attempts joined, with every message of every attempt |
| `RetriedStreams.HandlerAttempt` | src/protocol/grpc_web/server/server.ts:300-449 | the exchange with a conforming handler forms a trace: its messages and its ending |
| `RetriedStreams.RetriedPromise` | src/client/stream.ts:200-220 | the promise of a mapped, retried stream: the values of all messages that come through, or the earliest failure |
| `RetriedStreams.HandlersToPromise` | src/client/service.ts:207-211 | end to end from handlers to the promise: the messages of all handlers asked, or the transmitted error of the last |

## Left out

- `GrpcWebClient.ReadHeaders`: a status other than 200 becomes one error; the tables that give it a type and a message are not modelled.
- `GrpcWebClient.GrpcWebStream.HeadersReceived`: the arrival of the headers and the end of their decoding are one step, taken when the decoding settles.
- `StreamRetrier.Step`: events of the latest stream are taken in every phase; those that an earlier, already replaced stream would still emit are excluded.
- `RetriedStreams.RetriedDelivery`: exchanges that form no trace are excluded; `ClientTraces.FormsTraceIff` says which they are, `ClientTraces.ExchangeMeaning` what they emit.
- `Delivery.TruthfulIffOrderly`: an error text too long for a frame is excluded; `GrpcWebServer.OversizedError` says what is written then.
- `StreamRetrier.RetryingStreamImpl.CancelStream`: the `canceled` event of the inner stream is taken to be synchronous.
- `Backoff.GetBackoffMs`: natural numbers in place of floating point; no infinity.
- `HeaderValues.EncodeHeaderValue`: lone surrogates, for which the source throws, are not strings of the model.
- `Metadata.ParseHeaders`: an assumption about a library; header names it would refuse are not distinguished.
- `GrpcErrors.ErrorToSend`: the HTTP status that goes with an error is not modelled.
- `GrpcWebServer.RepeatedReadyIsIdle`: the function that `onReady` passes to close the stream is not modelled.
- `GrpcWebServer.FinishedIsFinal`: whether a late write reports an error to the server is not modelled.
- Routing, request decoding, content negotiation, compression, response contexts on the server, error reporting.
- Context connectors, tokens and their verification.
- The codec method decodeTrailer, the default list of errors not to retry, the service events of the retrier, and the method map for unary methods.
