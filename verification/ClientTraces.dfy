/** When the events of a client stream form a well-formed trace. */
module ClientTraces {
  import opened Wrappers
  import opened Wire
  import opened ChunkParsing
  import opened Streams
  import opened GrpcWebClient
  import opened ClientFrames
  import opened ClientRuns
  import ClientSafety

  // Streams that are canceled

  /**
   * What makes a stream emit an event once it has been canceled. A request context that arrives
   * later starts the stream again; headers that are decoded then make it ready.
   */
  predicate Loud<M>(c: Client<M>, input: Input) {
    match input
    case Cancel => true
    case ConnectFailed(_) => true
    case End(error) => !(c.state == Started && error == None)
    case HeadersSettled(outcome) => !outcome.Decoded? || c.state == Started || c.state == EndedBeforeReady
    case _ => false
  }

  predicate IsQuiet<M>(decode: Decoder<M>, c: Client<M>, inputs: seq<Input>)
    decreases inputs
  {
    inputs == [] || (!Loud(c, inputs[0]) && IsQuiet(decode, Step(decode, c, inputs[0]), inputs[1..]))
  }

  /** The states a canceled stream can be in while it is quiet. */
  predicate IsHushed<M>(c: Client<M>) {
    c.state == IsCanceled || c.state == Started || c.state == EndedBeforeReady
  }

  lemma EventsGrow<M>(decode: Decoder<M>, c: Client<M>, input: Input)
    ensures c.events <= Step(decode, c, input).events
  {
    hide OnChunk, OnChunks, ErrorOfTransport, ClientSafety.Milestones;
    match input
    case HeadersSettled(outcome) =>
      if outcome.Decoded? {
        var ready := Emit(c.(context := Some(outcome.context), state := IsReady), Ready);
        ClientSafety.OnChunksExtends(decode, ready, c.pending);
      }
    case Piece(bytes) =>
      ClientSafety.OnChunkExtends(decode, c, bytes);
    case _ =>
  }

  lemma {:induction false} RunGrows<M>(decode: Decoder<M>, c: Client<M>, inputs: seq<Input>)
    ensures c.events <= Run(decode, c, inputs).events
    decreases inputs
  {
    hide Step;
    if inputs == [] {
    } else {
      EventsGrow(decode, c, inputs[0]);
      RunGrows(decode, Step(decode, c, inputs[0]), inputs[1..]);
    }
  }

  lemma LoudSpeaks<M>(decode: Decoder<M>, c: Client<M>, input: Input)
    requires IsHushed(c)
    ensures var d := Step(decode, c, input);
            && c.events <= d.events
            && (Loud(c, input) <==> d.events != c.events)
            && (!Loud(c, input) ==> IsHushed(d))
  {
    hide OnChunk, OnChunks, ErrorOfTransport, ClientSafety.Milestones;
    EventsGrow(decode, c, input);
    if input.HeadersSettled? && input.outcome.Decoded? && c.state != IsCanceled {
      var ready := Emit(c.(context := Some(input.outcome.context), state := IsReady), Ready);
      ClientSafety.OnChunksExtends(decode, ready, c.pending);
      assert |ready.events| > |c.events|;
    }
  }

  lemma {:induction false} QuietAfterCancel<M>(decode: Decoder<M>, c: Client<M>, later: seq<Input>)
    requires IsHushed(c)
    ensures var d := Run(decode, c, later);
            c.events <= d.events && (d.events == c.events <==> IsQuiet(decode, c, later))
    decreases later
  {
    hide Step, Loud, IsHushed;
    if later == [] {
    } else {
      var d := Step(decode, c, later[0]);
      LoudSpeaks(decode, c, later[0]);
      RunGrows(decode, d, later[1..]);
      if !Loud(c, later[0]) {
        QuietAfterCancel(decode, d, later[1..]);
      }
    }
  }

  lemma CanceledState<M>(decode: Decoder<M>, c: Client<M>)
    ensures var d := Step(decode, c, Cancel);
            d.events == c.events + [Event.Canceled] && IsHushed(d)
  {
  }

  /** A trace that goes on after a terminal event is none. */
  lemma EndsThere<M, E>(before: seq<Event<M, E>>, events: seq<Event<M, E>>)
    requires before + [Event.Canceled] <= events
    ensures IsTrace(events) <==> IsOpen(before) && events == before + [Event.Canceled]
  {
    var n := |before|;
    assert events[n] == Event.Canceled;
    if |events| > n + 1 {
      assert events[..|events| - 1][n] == Event.Canceled;
    } else {
      assert events == before + [Event.Canceled] && events[..n] == before;
    }
  }

  /**
   * For every client and whatever follows: the events of a canceled stream are a trace, ended by
   * `canceled`, exactly when it had not ended before and nothing that follows is loud.
   */
  lemma TraceAfterCancel<M>(decode: Decoder<M>, c: Client<M>, later: seq<Input>)
    ensures IsTrace(Run(decode, Step(decode, c, Cancel), later).events)
       <==> IsOpen(c.events) && IsQuiet(decode, Step(decode, c, Cancel), later)
  {
    hide Step, Run, IsOpen, Loud, IsQuiet, IsTrace, IsHushed;
    CanceledState(decode, c);
    QuietAfterCancel(decode, Step(decode, c, Cancel), later);
    EndsThere(c.events, Run(decode, Step(decode, c, Cancel), later).events);
  }

  /** A cancel while the request context is awaited, undone: the events are no trace. */
  lemma CanceledYetReady<M>(decode: Decoder<M>, context: Context)
    ensures var c, later := Step(decode, NewClient<M>(), Start(None)), [Connected, HeadersSettled(Decoded(context))];
            && ClientSafety.PossibleRun(decode, Step(decode, c, Cancel), later)
            && Run(decode, Step(decode, c, Cancel), later).events == [Event.Canceled, Ready]
            && !IsTrace(Run(decode, Step(decode, c, Cancel), later).events)
  {
    hide OnChunk;
    var settle := HeadersSettled(Decoded(context));
    var canceled := Step(decode, Step(decode, NewClient<M>(), Start(None)), Cancel);
    var started := Step(decode, canceled, Connected);
    assert Step(decode, started, settle).events == [Event.Canceled, Ready];
    ClientSafety.PossibleFirst(decode, started, settle, []);
    ClientSafety.PossibleFirst(decode, canceled, Connected, [settle]);
    assert [settle] + [] == [settle] && [Connected] + [settle] == [Connected, settle];
    var events: seq<ClientEvent<M>> := [Event.Canceled, Ready];
    assert events[|events| - 1] == Ready;
  }

  // Streams that are not canceled

  /** One exchange with the server, as the transport reports it. */
  datatype Exchange = Exchange(outcome: HeaderOutcome, pieces: seq<Bytes>, moment: nat, end: Option<TransportError>)

  predicate IsFailure(f: WireFrame) {
    IsTrailer(f) && TrailerReading(f.payload).Failed?
  }

  predicate NoneFails(fs: seq<WireFrame>) {
    forall i :: 0 <= i < |fs| ==> !IsFailure(fs[i])
  }

  /** No trailer reports an error, unless it is the last frame. */
  predicate OnlyLastFails(fs: seq<WireFrame>) {
    fs == [] || NoneFails(fs[..|fs| - 1])
  }

  /**
   * The exact condition for a well-formed trace. A failure found in the headers must be the only
   * one. Otherwise a trailer that reports an error must be the last frame that takes effect, and
   * the replay must not throw, unless this is all that ends the stream.
   */
  predicate FormsTrace<M>(decode: Decoder<M>, x: Exchange) {
    var fs, throws := Reached(decode, x.pieces, x.moment), ReplayThrows(decode, x.pieces, x.moment);
    if !x.outcome.Decoded? then x.end == None
    else if x.moment <= |x.pieces| then !throws && OnlyLastFails(fs)
    else if x.end.Some? then true
    else if throws then NoneFails(fs)
    else OnlyLastFails(fs)
  }

  /** The events of an exchange, by its frames. */
  function ExchangeEvents<M>(decode: Decoder<M>, x: Exchange): (events: seq<ClientEvent<M>>)
    ensures events != []
  {
    match x.outcome
    case Decoded(context) => EventsAt(decode, context, x.pieces, x.moment, x.end)
    case _ =>
      if x.moment <= |x.pieces| then [Error(x.outcome.error)] + FailureOfEnd(x.end)
      else FailureOfEnd(x.end) + [Error(x.outcome.error)]
  }

  lemma ExchangeMeaning<M>(decode: Decoder<M>, x: Exchange)
    requires x.moment <= |x.pieces| + 1
    ensures Observe(decode, x.pieces, x.moment, x.outcome, x.end) == ExchangeEvents(decode, x)
  {
    hide Observe, EventsAt, FailureOfEnd;
    match x.outcome
    case Decoded(context) => ObserveMeaning(decode, context, x.pieces, x.moment, x.end);
    case _ => HeaderFailureReported(decode, x.outcome, x.pieces, x.moment, x.end);
  }

  lemma {:induction false} OpenUnlessFailure<M>(decode: Decoder<M>, context: Option<Context>, fs: seq<WireFrame>)
    ensures IsOpen(Delivered(decode, context, fs)) <==> NoneFails(fs)
    decreases fs
  {
    hide TrailerReading, IsOpen;
    OpenOne<Response<M>, ClientError>(Ready);
    if fs == [] {
    } else {
      var rest := fs[1..];
      OpenUnlessFailure(decode, context, rest);
      OpenConcat(FrameEvents(decode, context, fs[0]), Delivered(decode, context, rest));
      OpenFrame(decode, context, fs[0]);
      assert forall i :: 1 <= i < |fs| ==> fs[i] == rest[i - 1];
      assert NoneFails(fs) <==> !IsFailure(fs[0]) && NoneFails(rest) by {
        assert forall i :: 0 <= i < |rest| ==> rest[i] == fs[i + 1];
      }
    }
  }

  lemma OpenFrame<M>(decode: Decoder<M>, context: Option<Context>, f: WireFrame)
    ensures IsOpen(FrameEvents(decode, context, f)) <==> !IsFailure(f)
  {
    hide TrailerReading;
    var events := FrameEvents(decode, context, f);
    if IsFailure(f) {
      assert IsTerminal(events[0]);
    }
  }

  /** The state after frames says whether the last trailer reports an error. */
  lemma {:induction false} ErrorNeedsFailure(fs: seq<WireFrame>, before: State)
    requires NoneFails(fs) && before != HasError
    ensures StateAfter(fs, before) != HasError
    decreases fs
  {
    hide TrailerReading;
    if fs == [] {
    } else {
      assert forall i :: 0 <= i < |fs[1..]| ==> fs[1..][i] == fs[i + 1];
      ErrorNeedsFailure(fs[1..], FrameState(fs[0], before));
    }
  }

  /** Clean frames and the end of the transport are a trace unless a failure is followed by frames. */
  lemma FramesFormTrace<M>(
      decode: Decoder<M>, context: Context, front: seq<ClientEvent<M>>, fs: seq<WireFrame>, end: Option<TransportError>)
    requires Clean(decode, fs) && front == [Ready] + Delivered(decode, Some(context), fs)
    ensures IsTrace(front + Ending(StateAfter(fs, IsReady), end)) <==> OnlyLastFails(fs)
  {
    hide Delivered, StateAfter, Clean, IsOpen, IsTrace, NoneFails, IsFailure, FrameEvents, ErrorOfTransport;
    var delivered, state := Delivered(decode, Some(context), fs), StateAfter(fs, IsReady);
    OpenUnlessFailure(decode, Some(context), fs);
    OpenOne<Response<M>, ClientError>(Ready);
    OpenConcat([Ready], delivered);
    if fs == [] {
      NoneFailsYet();
    } else {
      LastFrame(decode, context, fs);
    }
    if state == HasError {
      if NoneFails(fs) {
        ErrorNeedsFailure(fs, IsReady);
      }
      var before, last := fs[..|fs| - 1], fs[|fs| - 1];
      var first := Delivered(decode, Some(context), before);
      OpenUnlessFailure(decode, Some(context), before);
      OpenConcat([Ready], first);
      var e := FrameEvents(decode, Some(context), last)[0];
      assert front + Ending(state, end) == [Ready] + first + [e];
      TraceOfOneMore([Ready] + first, e);
    } else {
      var e := Ending<M>(state, end)[0];
      TraceOfOneMore(front, e);
      assert IsTrace(front + [e]) <==> NoneFails(fs);
    }
  }

  lemma NoneFailsYet()
    ensures NoneFails([])
  {
  }

  /** What the last of several clean frames adds, and what it says about the ones before. */
  lemma LastFrame<M>(decode: Decoder<M>, context: Context, fs: seq<WireFrame>)
    requires fs != [] && Clean(decode, fs)
    ensures var before, last := fs[..|fs| - 1], fs[|fs| - 1];
            var events := FrameEvents(decode, Some(context), last);
            && Delivered(decode, Some(context), fs) == Delivered(decode, Some(context), before) + events
            && (NoneFails(fs) <==> NoneFails(before) && !IsFailure(last))
            && (IsFailure(last) ==> StateAfter(fs, IsReady) == HasError)
            && (StateAfter(fs, IsReady) == HasError ==>
                  && |events| == 1 && (IsTerminal(events[0]) <==> IsFailure(last))
                  && (!IsFailure(last) ==> !NoneFails(before)))
  {
    hide TrailerReading, Delivered, StateAfter, Clean;
    var before: seq<WireFrame>, last := fs[..|fs| - 1], fs[|fs| - 1];
    var one: seq<WireFrame> := [last];
    assert fs == before + one;
    SingleFrame(decode, Some(context), last, StateAfter(before, IsReady));
    DeliveredConcat(decode, Some(context), before, one);
    StateAfterConcat(before, one, IsReady);
    CleanConcat(decode, before, one);
    var events := FrameEvents(decode, Some(context), last);
    if NoneFails(before) {
      ErrorNeedsFailure(before, IsReady);
    }
  }

  lemma OneError<M>(e: ClientError)
    ensures var events: seq<ClientEvent<M>> := [Error(e)]; IsTrace(events)
  {
  }

  /** The exception of a replay before the end of the transport is never the last word. */
  lemma ThrowingFormsNoTrace<M>(
      decode: Decoder<M>, context: Context, pieces: seq<Bytes>, k: nat, end: Option<TransportError>)
    requires k <= |pieces| && ReplayThrows(decode, pieces, k)
    ensures !IsTrace(EventsAt(decode, context, pieces, k, end))
  {
    hide Delivered, StateAfter, Clean, IsOpen, KeptInReplay, KeptAfter, ReplayThrows, HasTrailer, ErrorOfTransport;
    var replayed, after := KeptInReplay(decode, [], Waiting(pieces, k)), KeptAfter(decode, pieces, k);
    var front := [Ready] + Delivered(decode, Some(context), replayed);
    var rest := Delivered(decode, Some(context), after) + Ending(StateAfter(Reached(decode, pieces, k), IsReady), end);
    var events := EventsAt(decode, context, pieces, k, end);
    assert events == front + [Error(Exception)] + rest;
    if rest == [] {
      assert Ending<M>(StateAfter(Reached(decode, pieces, k), IsReady), end) == [];
      SilentEnding(decode, context, pieces, k);
      OpenUnlessFailure(decode, Some(context), replayed);
      OpenConcat([Ready], Delivered(decode, Some(context), replayed));
      assert events == front + [Error(Exception)];
      TraceOfOneMore<Response<M>, ClientError>(front, Error(Exception));
    } else {
      var open := events[..|events| - 1];
      assert open[|front|] == Error(Exception);
      assert !IsOpen(open) by { TerminalIsNotOpen(open, |front|); }
    }
  }

  lemma TerminalIsNotOpen<M, E>(events: seq<Event<M, E>>, i: nat)
    requires i < |events| && IsTerminal(events[i])
    ensures !IsOpen(events)
  {
  }

  /** If nothing is said after the replay, the replay has met a trailer that reports an error. */
  lemma SilentEnding<M>(decode: Decoder<M>, context: Context, pieces: seq<Bytes>, k: nat)
    requires k <= |pieces| && StateAfter(Reached(decode, pieces, k), IsReady) == HasError
    requires Delivered(decode, Some(context), KeptAfter(decode, pieces, k)) == []
    ensures !NoneFails(KeptInReplay(decode, [], Waiting(pieces, k)))
  {
    hide Delivered, StateAfter, Clean, KeptInReplay, KeptAfter, NoneFails, IsOpen;
    var replayed, after := KeptInReplay(decode, [], Waiting(pieces, k)), KeptAfter(decode, pieces, k);
    StateAfterConcat(replayed, after, IsReady);
    OpenUnlessFailure(decode, Some(context), after);
    OpenOne<Response<M>, ClientError>(Ready);
    if NoneFails(replayed) {
      ErrorNeedsFailure(replayed, IsReady);
      ErrorNeedsFailure(after, StateAfter(replayed, IsReady));
    }
  }

  /**
   * For every exchange, whatever its frames, its split, its moment and its end: the events of a
   * stream that is not canceled are a trace exactly under the condition above.
   */
  lemma FormsTraceIff<M>(decode: Decoder<M>, x: Exchange)
    requires x.moment <= |x.pieces| + 1
    ensures IsTrace(Observe(decode, x.pieces, x.moment, x.outcome, x.end)) <==> FormsTrace(decode, x)
  {
    hide Observe, Delivered, StateAfter, Clean, IsOpen, IsTrace, KeptInReplay, KeptAfter, ReplayThrows;
    hide NoneFails, OnlyLastFails;
    hide Ending, ErrorOfTransport;
    ExchangeMeaning(decode, x);
    match x.outcome
    case Decoded(context) =>
      var throws := ReplayThrows(decode, x.pieces, x.moment);
      var replayed := KeptInReplay(decode, [], Waiting(x.pieces, x.moment));
      var after := KeptAfter(decode, x.pieces, x.moment);
      var fs := Reached(decode, x.pieces, x.moment);
      if x.moment > |x.pieces| && x.end.Some? {
        OneError<M>(ErrorOfTransport(x.end.value));
      } else if !throws {
        var front := EventsBeforeEnd(decode, context, x.pieces, x.moment);
        ReachedIsClean(decode, x.pieces, x.moment);
        DeliveredConcat(decode, Some(context), replayed, after);
        assert front == [Ready] + Delivered(decode, Some(context), fs);
        FramesFormTrace(decode, context, front, fs, x.end);
      } else if x.moment <= |x.pieces| {
        ThrowingFormsNoTrace(decode, context, x.pieces, x.moment, x.end);
      } else {
        LateException(decode, context, x.pieces, x.moment);
      }
    case _ =>
      HeaderFailureTraces<M>(x.outcome.error, x.end);
  }

  lemma LateException<M>(decode: Decoder<M>, context: Context, pieces: seq<Bytes>, k: nat)
    requires k > |pieces| && ReplayThrows(decode, pieces, k)
    ensures IsTrace(EventsAt(decode, context, pieces, k, None)) <==> NoneFails(Reached(decode, pieces, k))
  {
    hide Delivered, Clean, IsOpen, IsTrace, KeptInReplay, ReplayThrows, NoneFails;
    var fs := KeptInReplay(decode, [], pieces);
    var front := [Ready] + Delivered(decode, Some(context), fs);
    NothingDelivered(decode, Some(context), IsReady);
    assert Reached(decode, pieces, k) == fs + [] == fs;
    assert EventsAt(decode, context, pieces, k, None) == front + [Error(Exception)];
    OpenUnlessFailure(decode, Some(context), fs);
    OpenOne<Response<M>, ClientError>(Ready);
    OpenConcat([Ready], Delivered(decode, Some(context), fs));
    TraceOfOneMore<Response<M>, ClientError>(front, Error(Exception));
  }

  lemma HeaderFailureTraces<M>(e: ClientError, end: Option<TransportError>)
    ensures IsTrace([Error(e)] + FailureOfEnd<M>(end)) <==> end == None
    ensures IsTrace(FailureOfEnd<M>(end) + [Error(e)]) <==> end == None
  {
    hide ErrorOfTransport;
    TraceOfOneMore<Response<M>, ClientError>(FailureOfEnd<M>(end), Error(e));
    if end.Some? {
      TraceOfOneMore<Response<M>, ClientError>([Error(e)], FailureOfEnd<M>(end)[0]);
      assert IsTerminal(FailureOfEnd<M>(end)[0]);
    } else {
      assert [Error(e)] + FailureOfEnd<M>(end) == FailureOfEnd<M>(end) + [Error(e)];
    }
  }

  lemma {:induction false} SeenIsOneBatch(fs: seq<WireFrame>)
    ensures OnlyLastFails(Batch(fs))
  {
    hide TrailerReading;
    if fs == [] {
    } else {
      var rest, seen := Batch(fs[1..]), Batch(fs);
      SeenIsOneBatch(fs[1..]);
      if IsTrailer(fs[0]) {
        assert seen[..|seen| - 1] == [];
      } else if rest == [] {
        assert seen == [fs[0]] && seen[..|seen| - 1] == [];
      } else {
        assert seen[..|seen| - 1] == [fs[0]] + rest[..|rest| - 1];
      }
    }
  }

  /**
   * A response that can be taken in, complete or truncated, with no piece behind the first trailer,
   * always forms a trace, however its transport ends.
   */
  lemma CleanFormsTrace<M>(decode: Decoder<M>, x: Exchange)
    requires x.moment <= |x.pieces| + 1 && x.outcome.Decoded?
    requires NothingAfterTrailer([], x.pieces) && Clean(decode, Seen(Flatten(x.pieces)))
    ensures FormsTrace(decode, x)
  {
    hide Clean, Seen, Taken, Flatten, NothingAfterTrailer, Reached, ReplayThrows, OnlyLastFails;
    TakenIsSeen(x.pieces, x.moment);
    ReachedIsTaken(decode, x.pieces, x.moment);
    SeenFormsBatch(Flatten(x.pieces));
  }

  lemma SeenFormsBatch(body: Bytes)
    ensures OnlyLastFails(Seen(body))
  {
    SeenIsOneBatch(Frames(body));
  }
}
