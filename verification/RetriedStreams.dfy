/** Client streams as the attempts of a retrying stream. */
module RetriedStreams {
  import opened Wrappers
  import opened Wire
  import opened Metadata
  import opened GrpcErrors
  import opened ChunkParsing
  import opened Streams
  import opened GrpcWebClient
  import opened ClientFrames
  import opened ClientRuns
  import opened ClientTraces
  import Delivery
  import Server = GrpcWebServer
  import Retrier = StreamRetrier
  import Promises

  // A cancel, and then the end of the transport

  /**
   * A retrying stream canceled after `ready`, whose transport then closes: the client stream emits
   * an error after `canceled`, and so does the retrying stream.
   */
  lemma CancelThenEnd<M>(decode: Decoder<M>, p: Retrier.Policy<ClientError>, context: Context)
    ensures var e := RpcError(Unavailable, None, None);
            && Run(decode, StartedClient<M>(), [HeadersSettled(Decoded(context)), Cancel, End(None)]).events
               == [Ready, Event.Canceled, Error(e)]
            && Retrier.Run(p, Retrier.NewRetrier<M, ClientError>(),
                           [Retrier.Start, Retrier.Inner(Ready), Retrier.Cancel, Retrier.Continue,
                            Retrier.Inner(Error(e))]).out
               == [Ready, Event.Canceled]
                  + if Retrier.MayRetry(p, 0, e) then [RetryingError(e, 0, false)]
                    else [RetryingError(e, 0, true), Error(e)]
  {
    ClientEndsAfterCancel(decode, context);
    RetrierTellsAfterCancel<M>(p, RpcError(Unavailable, None, None));
  }

  lemma ClientEndsAfterCancel<M>(decode: Decoder<M>, context: Context)
    ensures Run(decode, StartedClient<M>(), [HeadersSettled(Decoded(context)), Cancel, End(None)]).events
         == [Ready, Event.Canceled, Error(RpcError(Unavailable, None, None))]
  {
    hide OnChunk;
    var c0, settle := StartedClient<M>(), HeadersSettled(Decoded(context));
    var canceled := Step(decode, Step(decode, c0, settle), Cancel);
    assert canceled.events == [Ready, Event.Canceled] && canceled.state == IsCanceled;
    var ended := Step(decode, canceled, End(None));
    hide Step;
    RunConcat(decode, c0, [settle], [Cancel]);
    RunOne(decode, c0, settle);
    RunOne(decode, Run(decode, c0, [settle]), Cancel);
    RunConcat(decode, c0, [settle] + [Cancel], [End(None)]);
    RunOne(decode, canceled, End(None));
    assert [settle] + [Cancel] + [End(None)] == [settle, Cancel, End(None)];
  }

  lemma RetrierTellsAfterCancel<M>(p: Retrier.Policy<ClientError>, e: ClientError)
    ensures Retrier.Run(p, Retrier.NewRetrier<M, ClientError>(),
                        [Retrier.Start, Retrier.Inner(Ready), Retrier.Cancel, Retrier.Continue,
                         Retrier.Inner(Error(e))]).out
         == [Ready, Event.Canceled]
            + if Retrier.MayRetry(p, 0, e) then [RetryingError(e, 0, false)] else [RetryingError(e, 0, true), Error(e)]
  {
    var r := Retrier.NewRetrier<M, ClientError>();
    var inputs: seq<Retrier.Input<M, ClientError>> :=
      [Retrier.Start, Retrier.Inner(Ready), Retrier.Cancel, Retrier.Continue];
    var last: Retrier.Input<M, ClientError> := Retrier.Inner(Error(e));
    var left := r.(state := Retrier.IsCanceled, phase := Retrier.Finished, streams := 1,
                   out := [Ready, Event.Canceled]);
    assert Retrier.Run(p, r, inputs) == left by {
      assert inputs[1..] == [Retrier.Inner(Ready), Retrier.Cancel, Retrier.Continue];
      assert inputs[1..][1..] == [Retrier.Cancel, Retrier.Continue];
      assert inputs[1..][1..][1..] == [Retrier.Continue] && inputs[1..][1..][1..][1..] == [];
    }
    Retrier.RunConcat(p, r, inputs, [last]);
    assert inputs + [last] == [Retrier.Start, Retrier.Inner(Ready), Retrier.Cancel, Retrier.Continue, last];
    assert [last][1..] == [];
  }

  // Delivery over retries

  /** The events that the client stream of an exchange emits. */
  function Observed<M>(decode: Decoder<M>, x: Exchange): seq<ClientEvent<M>>
    requires x.moment <= |x.pieces| + 1
  {
    Observe(decode, x.pieces, x.moment, x.outcome, x.end)
  }

  /** The attempt these events form, if they form one. */
  function AttemptOf<M>(decode: Decoder<M>, x: Exchange): Retrier.Attempt<Response<M>, ClientError> {
    var events := ExchangeEvents(decode, x);
    Retrier.Attempt(events[..|events| - 1], events[|events| - 1])
  }

  /** A stream that is not canceled emits neither `canceled` nor, as a client stream, a retry. */
  predicate IsPlain<M, E>(events: seq<Event<M, E>>) {
    forall i :: 0 <= i < |events| ==> !events[i].RetryingError? && !events[i].Canceled?
  }

  lemma PlainConcat<M, E>(a: seq<Event<M, E>>, b: seq<Event<M, E>>)
    requires IsPlain(a) && IsPlain(b)
    ensures IsPlain(a + b)
  {
  }

  lemma {:induction false} DeliveredIsPlain<M>(decode: Decoder<M>, context: Option<Context>, fs: seq<WireFrame>)
    ensures IsPlain(Delivered(decode, context, fs))
  {
    hide TrailerReading;
    if fs == [] {
    } else {
      DeliveredIsPlain(decode, context, fs[1..]);
      PlainConcat(FrameEvents(decode, context, fs[0]), Delivered(decode, context, fs[1..]));
    }
  }

  lemma EventsArePlain<M>(decode: Decoder<M>, x: Exchange)
    ensures IsPlain(ExchangeEvents(decode, x))
    ensures var events := ExchangeEvents(decode, x); events[0] == Ready || IsTerminal(events[0])
  {
    hide Delivered, KeptInReplay, KeptAfter, Reached, ReplayThrows, StateAfter, ErrorOfTransport;
    if x.outcome.Decoded? {
      DeliveredIsPlain(decode, Some(x.outcome.context), KeptInReplay(decode, [], Waiting(x.pieces, x.moment)));
      DeliveredIsPlain(decode, Some(x.outcome.context), KeptAfter(decode, x.pieces, x.moment));
    }
  }

  lemma PlainBody<M, E>(body: seq<Event<M, E>>)
    requires IsPlain(body)
    ensures Retrier.IsBody(body) <==> IsOpen(body)
    ensures Messages(body) != [] ==> body != []
  {
  }

  /** Events that begin with `ready`, or are over at once, are an attempt exactly when they are a trace. */
  lemma EventsAsAttempt<M, E>(events: seq<Event<M, E>>)
    requires events != [] && IsPlain(events) && (events[0].Ready? || IsTerminal(events[0]))
    ensures var a := Retrier.Attempt(events[..|events| - 1], events[|events| - 1]);
            && a.body + [a.end] == events
            && (Retrier.IsAttempt(a) <==> IsTrace(events))
            && (Retrier.IsAttempt(a) && Messages(a.body) != [] ==> a.body[0].Ready?)
  {
    hide Messages;
    PlainBody(events[..|events| - 1]);
  }

  lemma AttemptIffTrace<M>(decode: Decoder<M>, x: Exchange)
    ensures var a := AttemptOf(decode, x);
            && a.body + [a.end] == ExchangeEvents(decode, x)
            && (Retrier.IsAttempt(a) <==> IsTrace(ExchangeEvents(decode, x)))
            && (Retrier.IsAttempt(a) && Messages(a.body) != [] ==> a.body[0].Ready?)
  {
    hide ExchangeEvents, IsOpen, IsTrace, Messages, Retrier.IsAttempt, IsPlain;
    EventsArePlain(decode, x);
    EventsAsAttempt(ExchangeEvents(decode, x));
  }

  /** An exchange makes a well-formed attempt exactly when its events form a trace. */
  lemma AttemptIff<M>(decode: Decoder<M>, x: Exchange)
    requires x.moment <= |x.pieces| + 1
    ensures var a := AttemptOf(decode, x);
            && a.body + [a.end] == Observed(decode, x)
            && (Retrier.IsAttempt(a) <==> FormsTrace(decode, x))
            && (FormsTrace(decode, x) && Messages(a.body) != [] ==> a.body[0].Ready?)
  {
    hide Observe, ExchangeEvents, FormsTrace, IsTrace, AttemptOf, Messages;
    ExchangeMeaning(decode, x);
    AttemptIffTrace(decode, x);
    FormsTraceIff(decode, x);
  }

  function AttemptsOf<M>(decode: Decoder<M>, xs: seq<Exchange>): seq<Retrier.Attempt<Response<M>, ClientError>> {
    if xs == [] then [] else [AttemptOf(decode, xs[0])] + AttemptsOf(decode, xs[1..])
  }

  /** All exchanges form traces. */
  predicate AllForm<M>(decode: Decoder<M>, xs: seq<Exchange>) {
    forall i :: 0 <= i < |xs| ==> xs[i].moment <= |xs[i].pieces| + 1 && FormsTrace(decode, xs[i])
  }

  lemma {:induction false} AttemptsInOrder<M>(
      decode: Decoder<M>, p: Retrier.Policy<ClientError>, xs: seq<Exchange>, retries: nat)
    requires AllForm(decode, xs)
    ensures var attempts := AttemptsOf(decode, xs);
            && |attempts| == |xs| && (forall i :: 0 <= i < |xs| ==> attempts[i] == AttemptOf(decode, xs[i]))
            && Retrier.AreAttempts(attempts) && Retrier.ReadyBeforeMessages(p, attempts, retries)
    decreases xs
  {
    hide AttemptOf, Retrier.IsAttempt, Retrier.MayRetry, Retrier.RetriesAfter, Messages, FormsTrace, Observed;
    if xs == [] {
    } else {
      var a := AttemptOf(decode, xs[0]);
      AttemptIff(decode, xs[0]);
      assert forall i :: 0 <= i < |xs[1..]| ==> xs[1..][i] == xs[i + 1];
      AttemptsInOrder(decode, p, xs[1..], Retrier.RetriesAfter(a.body, retries) + 1);
      assert AttemptsOf(decode, xs)[1..] == AttemptsOf(decode, xs[1..]);
    }
  }

  /** The retrying stream, when its streams emit the attempts one after the other. */
  function RetriedRun<M, E>(p: Retrier.Policy<E>, attempts: seq<Retrier.Attempt<M, E>>): Retrier.Retrier<M, E> {
    Retrier.Run(p, Retrier.NewRetrier(), [Retrier.Start] + Retrier.AttemptInputs(p, attempts, 0))
  }

  lemma RetriedRunMeaning<M, E>(p: Retrier.Policy<E>, attempts: seq<Retrier.Attempt<M, E>>)
    requires Retrier.AreAttempts(attempts)
    ensures Retrier.ProperRun(p, Retrier.NewRetrier<M, E>(), [Retrier.Start] + Retrier.AttemptInputs(p, attempts, 0))
    ensures RetriedRun(p, attempts).out == Retrier.Concatenation(p, attempts, 0)
    ensures Messages(RetriedRun(p, attempts).out) == Retrier.DeliveredMessages(p, attempts, 0)
  {
    hide Retrier.AttemptInputs, Retrier.Concatenation, Retrier.DeliveredMessages, Messages;
    var r := Retrier.NewRetrier<M, E>();
    var started := Retrier.Step(p, r, Retrier.Start);
    Retrier.RetryRefinesConcatenation(p, started, attempts);
    Retrier.RunFirst(p, r, Retrier.Start, Retrier.AttemptInputs(p, attempts, 0));
    assert started.out + Retrier.Concatenation(p, attempts, 0) == Retrier.Concatenation(p, attempts, 0);
    Retrier.ConcatenationMessages(p, attempts, 0);
  }

  /**
   * Delivery over retries: for any exchanges that form traces, each client stream emits a
   * well-formed attempt, the retrying stream emits the attempts joined, and every message of every
   * attempt comes through.
   */
  lemma RetriedDelivery<M>(decode: Decoder<M>, p: Retrier.Policy<ClientError>, xs: seq<Exchange>)
    requires AllForm(decode, xs)
    ensures var attempts := AttemptsOf(decode, xs);
            && |attempts| == |xs| && Retrier.AreAttempts(attempts)
            && (forall i :: 0 <= i < |xs| ==>
                  xs[i].moment <= |xs[i].pieces| + 1 && attempts[i].body + [attempts[i].end] == Observed(decode, xs[i]))
            && RetriedRun(p, attempts).out == Retrier.Concatenation(p, attempts, 0)
            && Messages(RetriedRun(p, attempts).out) == Retrier.AllMessages(p, attempts, 0)
  {
    hide Observed, RetriedRun, AttemptsOf, AttemptOf, FormsTrace, Retrier.Concatenation, Retrier.AllMessages;
    hide Retrier.ReadyBeforeMessages, Messages;
    var attempts := AttemptsOf(decode, xs);
    AttemptsInOrder(decode, p, xs, 0);
    forall i | 0 <= i < |xs|
      ensures xs[i].moment <= |xs[i].pieces| + 1 && attempts[i].body + [attempts[i].end] == Observed(decode, xs[i])
    {
      AttemptIff(decode, xs[i]);
    }
    RetriedRunMeaning(p, attempts);
    Retrier.ConcatenationMessages(p, attempts, 0);
    Retrier.AllMessagesIffReadyFirst(p, attempts, 0);
  }

  // Up to the promise

  /** Some attempt is not tried again: the run comes to an end. */
  predicate Concludes<M, E>(p: Retrier.Policy<E>, attempts: seq<Retrier.Attempt<M, E>>, retries: nat)
    decreases attempts
  {
    && attempts != []
    && var a := attempts[0];
       var n := Retrier.RetriesAfter(a.body, retries);
       a.end.Error? && Retrier.MayRetry(p, n, a.end.error) ==> Concludes(p, attempts[1..], n + 1)
  }

  /** How the last attempt that is made ends. */
  function FinalEvent<M, E>(p: Retrier.Policy<E>, attempts: seq<Retrier.Attempt<M, E>>, retries: nat): Event<M, E>
    requires Concludes(p, attempts, retries)
    decreases attempts
  {
    var a := attempts[0];
    var n := Retrier.RetriesAfter(a.body, retries);
    if a.end.Error? && Retrier.MayRetry(p, n, a.end.error) then FinalEvent(p, attempts[1..], n + 1) else a.end
  }

  lemma {:induction false} VisibleIsOpen<M, E>(body: seq<Event<M, E>>)
    requires Retrier.IsBody(body)
    ensures IsOpen(Retrier.Visible(body))
  {
    if body == [] || body[0].Ready? {
    } else {
      VisibleIsOpen(body[1..]);
    }
  }

  lemma {:induction false} ConcatenationIsTrace<M, E>(
      p: Retrier.Policy<E>, attempts: seq<Retrier.Attempt<M, E>>, retries: nat)
    requires Retrier.AreAttempts(attempts) && Concludes(p, attempts, retries)
    ensures var out := Retrier.Concatenation(p, attempts, retries);
            && IsTrace(out) && Last(out) == FinalEvent(p, attempts, retries)
            && IsTerminal(FinalEvent(p, attempts, retries))
    decreases attempts
  {
    hide IsTrace, IsOpen, Retrier.Visible, Retrier.MayRetry, Retrier.RetriesAfter, Retrier.IsBody;
    var a, later := attempts[0], attempts[1..];
    assert Retrier.IsAttempt(a) && Retrier.AreAttempts(later);
    var n, seen := Retrier.RetriesAfter(a.body, retries), Retrier.Visible(a.body);
    VisibleIsOpen(a.body);
    if a.end.Error? && Retrier.MayRetry(p, n, a.end.error) {
      ConcatenationIsTrace(p, later, n + 1);
      NotedThenTrace(seen, RetryingError(a.end.error, n, false), Retrier.Concatenation(p, later, n + 1));
    } else if a.end.Error? {
      NotedThenTrace(seen, RetryingError(a.end.error, n, true), [a.end]);
      assert [RetryingError(a.end.error, n, true)] + [a.end] == [RetryingError(a.end.error, n, true), a.end];
    } else {
      TraceOfOneMore(seen, a.end);
    }
  }

  lemma NotedThenTrace<M, E>(seen: seq<Event<M, E>>, noted: Event<M, E>, rest: seq<Event<M, E>>)
    requires IsOpen(seen) && noted.RetryingError? && (IsTrace(rest) || (|rest| == 1 && IsTerminal(rest[0])))
    ensures IsTrace(seen + ([noted] + rest)) && Last(seen + ([noted] + rest)) == Last(rest)
  {
    hide IsOpen;
    if |rest| == 1 {
      OpenOne(noted);
      TraceOfOneMore([], rest[0]);
      assert [] + [rest[0]] == rest;
    }
    OpenOne(noted);
    OpenThenTrace([noted], rest);
    OpenThenTrace(seen, [noted] + rest);
  }

  /**
   * The promise of a mapped, retried stream that comes to an end: the values of all the messages
   * that come through when the last attempt completes, and otherwise the earliest failure of the
   * mapping or the ending of the last attempt.
   */
  lemma RetriedPromise<T, U, E>(p: Retrier.Policy<E>, fn: T -> Result<U, E>, attempts: seq<Retrier.Attempt<T, E>>)
    requires Retrier.AreAttempts(attempts) && Concludes(p, attempts, 0)
    ensures IsTerminal(FinalEvent(p, attempts, 0))
    ensures Promises.PromiseOf(Promises.Transform(fn, RetriedRun(p, attempts).out)) == Some(
            match Promises.MapAll(fn, Retrier.DeliveredMessages(p, attempts, 0))
            case Err(err) => Err(Promises.StreamError(err))
            case Ok(us) =>
              var end := FinalEvent(p, attempts, 0);
              if end.Complete? then Ok(us) else Err(Promises.FailureOf(end)))
  {
    hide Promises.PromiseOf, Promises.Transform, Promises.MapAll, Messages, IsTrace;
    hide RetriedRun, Retrier.Concatenation, Retrier.DeliveredMessages, Concludes, FinalEvent;
    RetriedRunMeaning(p, attempts);
    ConcatenationIsTrace(p, attempts, 0);
    Promises.StreamMapLaw(fn, Retrier.Concatenation(p, attempts, 0));
  }

  // From handlers to the promise

  /** A conforming run of a handler, and how its response arrives. */
  datatype Served<+M> = Served(
    messages: seq<M>,
    failure: Option<HandlerError>,
    headers: Headers,
    decodeContext: Headers -> Option<Context>,
    context: Context,
    pieces: seq<Bytes>,
    moment: nat)

  ghost predicate Arrives<M>(encode: Server.Encoder<M>, s: Served<M>) {
    && Server.Sendable(encode, s.messages) && Server.Fits(s.failure)
    && Flatten(s.pieces) == Delivery.HandlerBody(encode, s.messages, s.failure)
    && (forall piece :: piece in s.pieces ==> piece != [])
    && s.moment <= |s.pieces| + 1
    && Delivery.PlainHeaders(s.headers) && s.decodeContext(s.headers) == Some(s.context)
  }

  function ExchangeOf<M>(s: Served<M>): Exchange {
    Exchange(ReadHeaders(s.headers, 200, s.decodeContext), s.pieces, s.moment, None)
  }

  function ExchangesOf<M>(ss: seq<Served<M>>): seq<Exchange> {
    if ss == [] then [] else [ExchangeOf(ss[0])] + ExchangesOf(ss[1..])
  }

  /** The attempt of a handler: `ready`, its messages and its ending. */
  function ServedAttempt<M>(s: Served<M>): Retrier.Attempt<Response<M>, ClientError> {
    Retrier.Attempt([Ready] + Delivery.MessageEvents(s.messages, s.context), Delivery.EndEvent(s.failure, s.context))
  }

  lemma HandlerAttempt<M(!new)>(encode: Server.Encoder<M>, decode: Decoder<M>, s: Served<M>)
    requires Delivery.Inverse(encode, decode) && Arrives(encode, s)
    ensures FormsTrace(decode, ExchangeOf(s)) && AttemptOf(decode, ExchangeOf(s)) == ServedAttempt(s)
  {
    hide Observe, AttemptOf, FormsTrace, Delivery.HandlerBody, Delivery.Inverse, Server.Fits, Server.Sendable, Flatten;
    hide NothingAfterTrailer, Clean, Seen, Delivery.EndEvent, Delivery.MessageEvents, Reference;
    hide Retrier.IsAttempt, Messages, ReadHeaders, Delivery.PlainHeaders;
    var x := ExchangeOf(s);
    Delivery.PlainHeadersOutcome(s.headers, 200, s.context, s.decodeContext);
    Delivery.HandlerBodyMeaning(encode, s.messages, s.failure);
    Delivery.BodyArrives(encode, decode, s.context, s.messages, s.failure, s.pieces);
    CleanFormsTrace(decode, x);
    AttemptIff(decode, x);
    Delivery.StreamDelivery(encode, decode, s.messages, s.failure, s.pieces, s.moment,
                            s.headers, s.context, s.decodeContext);
    var a, b := AttemptOf(decode, x), ServedAttempt(s);
    SameLast(a.body, a.end, b.body, b.end);
  }

  lemma SameLast<T>(a: seq<T>, x: T, b: seq<T>, y: T)
    requires a + [x] == b + [y]
    ensures a == b && x == y
  {
    assert |a| == |b| && (a + [x])[|a|] == x && (b + [y])[|b|] == y;
    assert (a + [x])[..|a|] == a && (b + [y])[..|b|] == b;
  }

  /** The error of a handler that is tried again: the count of failures starts anew with each `ready`. */
  predicate IsRetried<M>(p: Retrier.Policy<ClientError>, s: Served<M>) {
    var end := Delivery.EndEvent<M>(s.failure, s.context);
    end.Error? && Retrier.MayRetry(p, 0, end.error)
  }

  /** The handlers whose responses are asked for: up to the first that is not tried again. */
  function Asked<M>(p: Retrier.Policy<ClientError>, ss: seq<Served<M>>): (r: seq<Served<M>>)
    ensures r <= ss
  {
    if ss == [] then [] else [ss[0]] + if IsRetried(p, ss[0]) then Asked(p, ss[1..]) else []
  }

  function AllSent<M>(ss: seq<Served<M>>): seq<M> {
    if ss == [] then [] else ss[0].messages + AllSent(ss[1..])
  }

  lemma {:induction false} MapAllConcat<M>(
      fn: Response<M> -> Result<M, ClientError>, a: seq<Response<M>>, b: seq<Response<M>>)
    requires Promises.MapAll(fn, a).Ok? && Promises.MapAll(fn, b).Ok?
    ensures Promises.MapAll(fn, a + b) == Ok(Promises.MapAll(fn, a).value + Promises.MapAll(fn, b).value)
  {
    if a == [] {
      assert a + b == b;
      assert [] + Promises.MapAll(fn, b).value == Promises.MapAll(fn, b).value;
    } else {
      assert (a + b)[1..] == a[1..] + b;
      MapAllConcat(fn, a[1..], b);
      var x, y := Promises.MapAll(fn, a[1..]).value, Promises.MapAll(fn, b).value;
      assert [fn(a[0]).value] + (x + y) == [fn(a[0]).value] + x + y;
    }
  }

  lemma ServedAttemptMeaning<M>(s: Served<M>, retries: nat)
    ensures var a := ServedAttempt(s);
            && Retrier.IsAttempt(a) && Retrier.Visible(a.body) == a.body && Retrier.RetriesAfter(a.body, retries) == 0
            && Promises.MapAll((r: Response<M>) => Delivery.ResponseOf(r), Messages(a.body)) == Ok(s.messages)
            && (a.end.Error? || a.end.Complete?) && (a.end.Complete? <==> s.failure == None)
  {
    hide Messages, Promises.MapAll;
    var messages := Delivery.MessageEvents(s.messages, s.context);
    Delivery.MessagesOfEvents(s.messages, s.context);
    NoMessages<Response<M>, ClientError>(Ready);
    MessagesConcat([Ready], messages);
    assert [] + Messages(messages) == Messages(messages);
    assert ServedAttempt(s).body[0] == Ready;
    MessageEventsAreMessages(s.messages, s.context);
    assert forall i :: 0 <= i < |messages| ==> messages[i] in messages;
  }

  lemma {:induction false} MessageEventsAreMessages<M>(ms: seq<M>, context: Context)
    ensures forall e :: e in Delivery.MessageEvents(ms, context) ==> e.Message?
  {
    if ms == [] {
    } else {
      MessageEventsAreMessages(ms[1..], context);
    }
  }

  /** One attempt in front of others, when it answers `ready` first. */
  lemma FirstAttempt<M>(
      p: Retrier.Policy<ClientError>, a: Retrier.Attempt<Response<M>, ClientError>,
      later: seq<Retrier.Attempt<Response<M>, ClientError>>, retries: nat)
    requires Retrier.IsAttempt(a) && Retrier.AreAttempts(later)
    requires Retrier.Visible(a.body) == a.body && Retrier.RetriesAfter(a.body, retries) == 0
    ensures var attempts, again := [a] + later, a.end.Error? && Retrier.MayRetry(p, 0, a.end.error);
            && Retrier.AreAttempts(attempts)
            && (Concludes(p, attempts, retries) <==> (again ==> Concludes(p, later, 1)))
            && (Concludes(p, attempts, retries) ==>
                  FinalEvent(p, attempts, retries) == if again then FinalEvent(p, later, 1) else a.end)
            && Retrier.DeliveredMessages(p, attempts, retries)
               == Messages(a.body) + if again then Retrier.DeliveredMessages(p, later, 1) else []
  {
    hide Messages, Retrier.MayRetry, Retrier.Visible, Retrier.RetriesAfter, Retrier.IsAttempt;
    var attempts := [a] + later;
    assert attempts[0] == a && attempts[1..] == later;
    assert forall i :: 1 <= i < |attempts| ==> attempts[i] == later[i - 1];
  }

  /** The attempts of the handlers, one by one. */
  lemma {:induction false} ServedRun<M(!new)>(
      encode: Server.Encoder<M>, decode: Decoder<M>, p: Retrier.Policy<ClientError>, ss: seq<Served<M>>, retries: nat)
    requires Delivery.Inverse(encode, decode) && forall i :: 0 <= i < |ss| ==> Arrives(encode, ss[i])
    requires ss != [] && Asked(p, ss) == ss && !IsRetried(p, ss[|ss| - 1])
    ensures var attempts, last := AttemptsOf(decode, ExchangesOf(ss)), ss[|ss| - 1];
            && Retrier.AreAttempts(attempts) && Concludes(p, attempts, retries)
            && FinalEvent(p, attempts, retries) == Delivery.EndEvent(last.failure, last.context)
            && Promises.MapAll((r: Response<M>) => Delivery.ResponseOf(r),
                               Retrier.DeliveredMessages(p, attempts, retries))
               == Ok(AllSent(ss))
    decreases ss
  {
    hide Messages, Promises.MapAll, Retrier.MayRetry, Retrier.Visible, Retrier.RetriesAfter, Retrier.IsAttempt;
    hide AttemptOf, ServedAttempt, Arrives, Delivery.Inverse, FormsTrace, Delivery.EndEvent;
    hide Concludes, FinalEvent, Retrier.DeliveredMessages, Retrier.AreAttempts, Asked;
    var fn := (r: Response<M>) => Delivery.ResponseOf(r);
    var s, rest := ss[0], ss[1..];
    var a, later := ServedAttempt(s), AttemptsOf(decode, ExchangesOf(rest));
    HandlerAttempt(encode, decode, s);
    ServedAttemptMeaning(s, retries);
    EndOfServed(s);
    assert ExchangesOf(ss)[1..] == ExchangesOf(rest) && AttemptsOf(decode, ExchangesOf(ss)) == [a] + later;
    if |ss| == 1 {
      NothingServed(decode, rest);
      FirstAttempt(p, a, later, retries);
      assert s.messages + [] == s.messages && Messages(a.body) + [] == Messages(a.body);
    } else {
      AskedTail(p, ss);
      assert forall i :: 0 <= i < |rest| ==> rest[i] == ss[i + 1];
      ServedRun(encode, decode, p, rest, 1);
      FirstAttempt(p, a, later, retries);
      MapAllConcat(fn, Messages(a.body), Retrier.DeliveredMessages(p, later, 1));
    }
  }

  lemma NothingServed<M>(decode: Decoder<M>, ss: seq<Served<M>>)
    requires ss == []
    ensures AttemptsOf(decode, ExchangesOf(ss)) == [] && AllSent(ss) == []
    ensures Retrier.AreAttempts(AttemptsOf(decode, ExchangesOf(ss)))
  {
  }

  lemma EndOfServed<M>(s: Served<M>)
    ensures ServedAttempt(s).end == Delivery.EndEvent(s.failure, s.context)
  {
  }

  lemma AskedTail<M>(p: Retrier.Policy<ClientError>, ss: seq<Served<M>>)
    requires Asked(p, ss) == ss && |ss| > 1
    ensures IsRetried(p, ss[0]) && Asked(p, ss[1..]) == ss[1..]
  {
    hide IsRetried;
    assert ([ss[0]] + Asked(p, ss[1..]))[1..] == Asked(p, ss[1..]);
  }

  /**
   * From handlers to the promise: when conforming handlers are asked one after the other, for every
   * split and every moment, the promise of the retried stream resolves to the messages of all of
   * them if the last one returns, and is rejected with its transmitted error if it throws.
   */
  lemma HandlersToPromise<M(!new)>(
      encode: Server.Encoder<M>, decode: Decoder<M>, p: Retrier.Policy<ClientError>, ss: seq<Served<M>>)
    requires Delivery.Inverse(encode, decode) && forall i :: 0 <= i < |ss| ==> Arrives(encode, ss[i])
    requires ss != [] && Asked(p, ss) == ss && !IsRetried(p, ss[|ss| - 1])
    ensures var last, out := ss[|ss| - 1], RetriedRun(p, AttemptsOf(decode, ExchangesOf(ss))).out;
            Promises.PromiseOf(Promises.Transform((r: Response<M>) => Delivery.ResponseOf(r), out)) ==
            match last.failure
            case None => Some(Ok(AllSent(ss)))
            case Some(_) => Some(Err(Promises.StreamError(Delivery.EndEvent<M>(last.failure, last.context).error)))
  {
    hide Promises.PromiseOf, Promises.Transform, Promises.MapAll, RetriedRun, Retrier.DeliveredMessages;
    hide AttemptsOf, ExchangesOf, Concludes, FinalEvent, Asked, IsRetried, Arrives, Delivery.Inverse;
    ServedRun(encode, decode, p, ss, 0);
    RetriedPromise(p, (r: Response<M>) => Delivery.ResponseOf(r), AttemptsOf(decode, ExchangesOf(ss)));
  }
}
