/** Streams turned into promises, mapped streams, and unary calls, retried or not. */
module Promises {
  import opened Wrappers
  import opened Streams
  import Retrier = StreamRetrier

  /** Why a promise is rejected. */
  datatype Failure<+E> =
    | StreamError(error: E)
    | CanceledError            // an RPC error of type `canceled`
    | ProtocolError            // not one message from a unary method

  // Unary calls

  /** A promise settles once: later settlements are ignored. */
  datatype CallState<+M, +E> = CallState(message: Option<M>, settled: Option<Result<M, Failure<E>>>)

  function NewCall<M, E>(): CallState<M, E> {
    CallState(None, None)
  }

  function Settle<M, E>(c: CallState<M, E>, result: Result<M, Failure<E>>): CallState<M, E> {
    if c.settled == None then c.(settled := Some(result)) else c
  }

  function OnCallEvent<M, E>(c: CallState<M, E>, e: Event<M, E>): CallState<M, E> {
    match e
    case Message(m) => if c.message.Some? then Settle(c, Err(ProtocolError)) else c.(message := Some(m))
    case Error(err) => Settle(c, Err(StreamError(err)))
    case Complete => Settle(c, if c.message.Some? then Ok(c.message.value) else Err(ProtocolError))
    case Canceled => Settle(c, Err(CanceledError))
    case _ => c
  }

  function CallRun<M, E>(c: CallState<M, E>, trace: seq<Event<M, E>>): CallState<M, E>
    decreases trace
  {
    if trace == [] then c else CallRun(OnCallEvent(c, trace[0]), trace[1..])
  }

  /** The object behind `Service.call`. */
  class UnaryCall<M, E> {
    var message: Option<M>
    var settled: Option<Result<M, Failure<E>>>

    ghost function Abs(): CallState<M, E>
      reads this
    {
      CallState(message, settled)
    }

    constructor ()
      ensures Abs() == NewCall()
    {
      message, settled := None, None;
    }

    method SettleWith(result: Result<M, Failure<E>>)
      modifies this`settled
      ensures Abs() == Settle(old(Abs()), result)
    {
      if settled.None? {
        settled := Some(result);
      }
    }

    method Receive(e: Event<M, E>)
      modifies this
      ensures Abs() == OnCallEvent(old(Abs()), e)
    {
      match e
      case Message(m) =>
        if message.Some? {
          SettleWith(Err(ProtocolError));
        } else {
          message := Some(m);
        }
      case Error(err) =>
        SettleWith(Err(StreamError(err)));
      case Complete =>
        if message.None? {
          SettleWith(Err(ProtocolError));
        } else {
          SettleWith(Ok(message.value));
        }
      case Canceled =>
        SettleWith(Err(CanceledError));
      case _ =>
    }
  }

  /** What a terminal event says to a promise. */
  function FailureOf<M, E>(end: Event<M, E>): Failure<E>
    requires end.Error? || end.Canceled?
  {
    if end.Error? then StreamError(end.error) else CanceledError
  }

  lemma {:induction false} SettledStays<M, E>(c: CallState<M, E>, trace: seq<Event<M, E>>)
    requires c.settled.Some?
    ensures CallRun(c, trace).settled == c.settled
    decreases trace
  {
    if trace == [] {
    } else {
      SettledStays(OnCallEvent(c, trace[0]), trace[1..]);
    }
  }

  /** The result of a unary call over a whole trace, given the message it already has. */
  function CallResult<M, E>(known: seq<M>, trace: seq<Event<M, E>>): Result<M, Failure<E>>
    requires trace != [] && IsTerminal(Last(trace))
  {
    var all, end := known + Messages(trace), Last(trace);
    if |all| > 1 then Err(ProtocolError)
    else if !end.Complete? then Err(FailureOf(end))
    else if |all| == 1 then Ok(all[0])
    else Err(ProtocolError)
  }

  function Known<M, E>(c: CallState<M, E>): seq<M> {
    if c.message.Some? then [c.message.value] else []
  }

  lemma TraceEnds<M, E>(trace: seq<Event<M, E>>)
    requires IsTrace(trace)
    ensures trace != [] && IsTerminal(Last(trace))
  {
  }

  lemma {:induction false} CallMeaning<M, E>(c: CallState<M, E>, trace: seq<Event<M, E>>)
    requires IsTrace(trace) && c.settled == None
    ensures IsTerminal(Last(trace)) && CallRun(c, trace).settled == Some(CallResult(Known(c), trace))
    decreases trace
  {
    TraceEnds(trace);
    var e, rest := trace[0], trace[1..];
    var next := OnCallEvent(c, e);
    assert Messages(trace) == MessageOf(e) + Messages(rest);
    if |trace| == 1 {
      assert rest == [] && Messages(rest) == [] && Known(c) + [] == Known(c);
      assert Known(c) + Messages(trace) == Known(c);
    } else if next.settled.Some? {
      SettledStays(next, rest);
    } else {
      CallMeaning(next, rest);
      assert Known(next) == Known(c) + MessageOf(e);
      assert Known(c) + (MessageOf(e) + Messages(rest)) == Known(c) + MessageOf(e) + Messages(rest);
    }
  }

  /**
   * A call resolves with `m` exactly when the stream completes after the single message `m`; with
   * two messages or more it is rejected with a protocol error, however the stream ends.
   */
  lemma CallResolves<M, E>(trace: seq<Event<M, E>>, m: M)
    requires IsTrace(trace)
    ensures var settled := CallRun(NewCall(), trace).settled;
            && (settled == Some(Ok(m)) <==> Messages(trace) == [m] && Last(trace).Complete?)
            && (|Messages(trace)| > 1 ==> settled == Some(Err(ProtocolError)))
            && (Messages(trace) == [] && Last(trace).Complete? ==> settled == Some(Err(ProtocolError)))
            && (|Messages(trace)| <= 1 && Last(trace).Canceled? ==> settled == Some(Err(CanceledError)))
            && (|Messages(trace)| <= 1 && Last(trace).Error? ==> settled == Some(Err(StreamError(Last(trace).error))))
  {
    hide CallRun, Messages, IsTrace;
    CallMeaning(NewCall<M, E>(), trace);
    assert [] + Messages(trace) == Messages(trace);
  }

  lemma {:induction false} CallRunConcat<M, E>(c: CallState<M, E>, a: seq<Event<M, E>>, b: seq<Event<M, E>>)
    ensures CallRun(c, a + b) == CallRun(CallRun(c, a), b)
    decreases a
  {
    if a == [] {
      assert a + b == b;
    } else {
      assert (a + b)[1..] == a[1..] + b;
      CallRunConcat(OnCallEvent(c, a[0]), a[1..], b);
    }
  }

  lemma {:induction false} CancelsCarryNoMessage<M, E>(events: seq<Event<M, E>>)
    requires Retrier.AllCanceled(events)
    ensures Messages(events) == []
  {
    if events == [] {
    } else {
      assert events[0] == Canceled;
      assert forall i :: 0 <= i < |events[1..]| ==> events[1..][i] == events[i + 1];
      CancelsCarryNoMessage(events[1..]);
    }
  }

  /**
   * The same over a retrying stream, for every run over well-behaved streams that is done, late
   * cancels included: what counts is the messages delivered over all the attempts together, and
   * the first terminal event.
   */
  lemma CallOverRetry<M, E>(p: Retrier.Policy<E>, inputs: seq<Retrier.Input<M, E>>, m: M)
    requires Retrier.ProperRun(p, Retrier.NewRetrier<M, E>(), inputs)
    requires Retrier.Done(Retrier.Run(p, Retrier.NewRetrier<M, E>(), inputs))
    ensures var out := Retrier.Run(p, Retrier.NewRetrier<M, E>(), inputs).out;
            var late := Retrier.LateCancels(p, Retrier.NewRetrier<M, E>(), inputs);
            var settled := CallRun(NewCall(), out).settled;
            && late < |out| && IsTrace(out[..|out| - late])
            && (settled == Some(Ok(m)) <==> Messages(out) == [m] && out[|out| - late - 1].Complete?)
            && (|Messages(out)| > 1 ==> settled == Some(Err(ProtocolError)))
  {
    hide Retrier.Run, Retrier.ProperRun, Retrier.LateCancels, CallRun, Messages, IsTrace;
    var out := Retrier.Run(p, Retrier.NewRetrier<M, E>(), inputs).out;
    var late := Retrier.LateCancels(p, Retrier.NewRetrier<M, E>(), inputs);
    Retrier.LateCancelsRepeat(p, inputs);
    var trace, more := out[..|out| - late], out[|out| - late..];
    TraceEnds(trace);
    assert out == trace + more;
    CallMeaning(NewCall<M, E>(), trace);
    CallRunConcat(NewCall<M, E>(), trace, more);
    SettledStays(CallRun(NewCall(), trace), more);
    MessagesConcat(trace, more);
    CancelsCarryNoMessage(more);
    assert Messages(trace) + [] == Messages(trace);
    CallResolves(trace, m);
  }

  // Whole streams as promises

  datatype Collector<+M, +E> = Collector(messages: seq<M>, settled: Option<Result<seq<M>, Failure<E>>>)

  function OnCollected<M, E>(c: Collector<M, E>, e: Event<M, E>): Collector<M, E> {
    match e
    case Message(m) => c.(messages := c.messages + [m])
    case Error(err) => SettleAll(c, Err(StreamError(err)))
    case Canceled => SettleAll(c, Err(CanceledError))
    case Complete => SettleAll(c, Ok(c.messages))
    case _ => c
  }

  function SettleAll<M, E>(c: Collector<M, E>, result: Result<seq<M>, Failure<E>>): Collector<M, E> {
    if c.settled == None then c.(settled := Some(result)) else c
  }

  function Collect<M, E>(c: Collector<M, E>, trace: seq<Event<M, E>>): Collector<M, E>
    decreases trace
  {
    if trace == [] then c else Collect(OnCollected(c, trace[0]), trace[1..])
  }

  /** The object behind `streamAsPromise`. */
  class StreamAsPromise<M, E> {
    var messages: seq<M>
    var settled: Option<Result<seq<M>, Failure<E>>>

    ghost function Abs(): Collector<M, E>
      reads this
    {
      Collector(messages, settled)
    }

    constructor ()
      ensures Abs() == Collector([], None)
    {
      messages, settled := [], None;
    }

    method Receive(e: Event<M, E>)
      modifies this
      ensures Abs() == OnCollected(old(Abs()), e)
    {
      match e
      case Message(m) =>
        messages := messages + [m];
      case Error(err) =>
        if settled.None? {
          settled := Some(Err(StreamError(err)));
        }
      case Canceled =>
        if settled.None? {
          settled := Some(Err(CanceledError));
        }
      case Complete =>
        if settled.None? {
          settled := Some(Ok(messages));
        }
      case _ =>
    }
  }

  /** The outcome of `streamAsPromise` over a trace. */
  function PromiseOf<M, E>(trace: seq<Event<M, E>>): Option<Result<seq<M>, Failure<E>>> {
    Collect(Collector([], None), trace).settled
  }

  lemma {:induction false} CollectSettled<M, E>(c: Collector<M, E>, trace: seq<Event<M, E>>)
    requires c.settled.Some?
    ensures Collect(c, trace).settled == c.settled
    decreases trace
  {
    if trace == [] {
    } else {
      CollectSettled(OnCollected(c, trace[0]), trace[1..]);
    }
  }

  // Mapped streams

  /** The event a transforming stream emits for an event of its source; `fn` may throw. */
  function TransformEvent<T, U, E>(fn: T -> Result<U, E>, e: Event<T, E>): Event<U, E> {
    match e
    case Message(t) =>
      (match fn(t)
       case Ok(u) => Message(u)
       case Err(err) => Error(err))
    case Error(err) => Error(err)
    case Ready => Ready
    case Complete => Complete
    case Canceled => Canceled
    case RetryingError(err, n, abandoned) => RetryingError(err, n, abandoned)
  }

  function Transform<T, U, E>(fn: T -> Result<U, E>, trace: seq<Event<T, E>>): seq<Event<U, E>> {
    if trace == [] then [] else [TransformEvent(fn, trace[0])] + Transform(fn, trace[1..])
  }

  /** The reference: the values of all messages, or the earliest failure. */
  function MapAll<T, U, E>(fn: T -> Result<U, E>, ts: seq<T>): Result<seq<U>, E> {
    if ts == [] then Ok([])
    else
      match fn(ts[0])
      case Err(err) => Err(err)
      case Ok(u) =>
        match MapAll(fn, ts[1..])
        case Err(err) => Err(err)
        case Ok(us) => Ok([u] + us)
  }

  function MappedOutcome<T, U, E>(fn: T -> Result<U, E>, trace: seq<Event<T, E>>): Result<seq<U>, Failure<E>>
    requires trace != [] && IsTerminal(Last(trace))
  {
    match MapAll(fn, Messages(trace))
    case Err(err) => Err(StreamError(err))
    case Ok(us) => if Last(trace).Complete? then Ok(us) else Err(FailureOf(Last(trace)))
  }

  function After<U, E>(before: seq<U>, r: Result<seq<U>, Failure<E>>): Result<seq<U>, Failure<E>> {
    if r.Ok? then Ok(before + r.value) else r
  }

  /** One more event in front. */
  lemma MappedStep<T, U, E>(fn: T -> Result<U, E>, e: Event<T, E>, rest: seq<Event<T, E>>)
    requires rest != [] && IsTerminal(Last(rest))
    ensures var r := MappedOutcome(fn, rest);
            MappedOutcome(fn, [e] + rest) ==
            if !e.Message? then r
            else match fn(e.message) case Err(err) => Err(StreamError(err)) case Ok(u) => After([u], r)
  {
    hide MapAll;
    var trace := [e] + rest;
    assert trace[1..] == rest && Last(trace) == Last(rest);
    if e.Message? {
      assert Messages(trace) == [e.message] + Messages(rest);
      MapAllStep(fn, e.message, Messages(rest));
    } else {
      assert Messages(trace) == Messages(rest);
    }
  }

  lemma MapAllStep<T, U, E>(fn: T -> Result<U, E>, t: T, ts: seq<T>)
    ensures MapAll(fn, [t] + ts) ==
            match fn(t)
            case Err(err) => Err(err)
            case Ok(u) => if MapAll(fn, ts).Ok? then Ok([u] + MapAll(fn, ts).value) else MapAll(fn, ts)
  {
    assert ([t] + ts)[1..] == ts;
  }

  lemma TransformStep<T, U, E>(fn: T -> Result<U, E>, c: Collector<U, E>, e: Event<T, E>, rest: seq<Event<T, E>>)
    ensures Collect(c, Transform(fn, [e] + rest)) == Collect(OnCollected(c, TransformEvent(fn, e)), Transform(fn, rest))
  {
    hide OnCollected, TransformEvent;
    assert ([e] + rest)[1..] == rest;
    assert Transform(fn, [e] + rest)[1..] == Transform(fn, rest);
  }

  lemma AfterAfter<U, E>(a: seq<U>, b: seq<U>, r: Result<seq<U>, Failure<E>>)
    ensures After(a, After(b, r)) == After(a + b, r) && After([], r) == r
  {
    if r.Ok? {
      assert a + (b + r.value) == a + b + r.value && [] + r.value == r.value;
    }
  }

  lemma NothingMore<T, U, E>(fn: T -> Result<U, E>, c: Collector<U, E>)
    ensures Collect(c, Transform(fn, [])) == c && MapAll(fn, []) == Ok([])
  {
  }

  lemma LastEvent<T, U, E>(fn: T -> Result<U, E>, c: Collector<U, E>, e: Event<T, E>)
    requires IsTerminal(e) && c.settled == None
    ensures Last([e]) == e
    ensures OnCollected(c, TransformEvent(fn, e)).settled == Some(After(c.messages, MappedOutcome(fn, [e])))
  {
    hide MapAll;
    NothingMore(fn, c);
    assert [e][1..] == [];
    assert Messages([e]) == [] && c.messages + [] == c.messages;
  }

  lemma {:induction false} CollectTransformed<T, U, E>(
      fn: T -> Result<U, E>, c: Collector<U, E>, trace: seq<Event<T, E>>)
    requires IsTrace(trace) && c.settled == None
    ensures IsTerminal(Last(trace))
    ensures Collect(c, Transform(fn, trace)).settled == Some(After(c.messages, MappedOutcome(fn, trace)))
    decreases trace
  {
    hide Collect, Transform, MappedOutcome, After;
    TraceEnds(trace);
    var e, rest := trace[0], trace[1..];
    var next := OnCollected(c, TransformEvent(fn, e));
    assert trace == [e] + rest;
    TransformStep(fn, c, e, rest);
    if |trace| == 1 {
      assert rest == [] && trace == [e];
      LastEvent(fn, c, e);
      NothingMore(fn, next);
    } else {
      TraceEnds(rest);
      MappedStep(fn, e, rest);
      if next.settled.Some? {
        CollectSettled(next, Transform(fn, rest));
        AfterFailure(c.messages, next.settled.value);
      } else {
        CollectTransformed(fn, next, rest);
        if e.Message? {
          AfterAfter(c.messages, [fn(e.message).value], MappedOutcome(fn, rest));
        }
      }
    }
  }

  lemma AfterFailure<U, E>(before: seq<U>, r: Result<seq<U>, Failure<E>>)
    requires r.Err?
    ensures After(before, r) == r
  {
  }

  /**
   * Stream map law: the promise of a mapped stream resolves to the values of all messages in order
   * exactly when the source completes and the function succeeds on each; otherwise it is rejected
   * with the earliest failure.
   */
  lemma StreamMapLaw<T, U, E>(fn: T -> Result<U, E>, trace: seq<Event<T, E>>)
    requires IsTrace(trace)
    ensures IsTerminal(Last(trace)) && PromiseOf(Transform(fn, trace)) == Some(MappedOutcome(fn, trace))
  {
    hide Collect, Transform, MapAll, Messages;
    CollectTransformed(fn, Collector([], None), trace);
    var r := MappedOutcome(fn, trace);
    assert r.Ok? ==> [] + r.value == r.value;
  }

  /** Only messages are mapped; every other event passes through as it is. */
  lemma {:induction false} TransformMeaning<T, U, E>(fn: T -> Result<U, E>, trace: seq<Event<T, E>>, i: nat)
    requires i < |trace|
    ensures |Transform(fn, trace)| == |trace|
    ensures var e, f := trace[i], Transform(fn, trace)[i];
            match e
            case Message(t) => f == (match fn(t) case Ok(u) => Message(u) case Err(err) => Error(err))
            case Error(err) => f == Error(err)
            case RetryingError(err, n, abandoned) => f == RetryingError(err, n, abandoned)
            case Ready => f == Ready
            case Complete => f == Complete
            case Canceled => f == Canceled
    decreases trace
  {
    TransformLength(fn, trace[1..]);
    if i == 0 {
    } else {
      TransformMeaning(fn, trace[1..], i - 1);
    }
  }

  lemma {:induction false} TransformLength<T, U, E>(fn: T -> Result<U, E>, trace: seq<Event<T, E>>)
    ensures |Transform(fn, trace)| == |trace|
  {
    hide TransformEvent;
    if trace == [] {
    } else {
      TransformLength(fn, trace[1..]);
    }
  }

  // Streams made of arrays

  function MessageEvents<M, E>(items: seq<M>): seq<Event<M, E>> {
    if items == [] then [] else [Message(items[0])] + MessageEvents(items[1..])
  }

  function ArrayTrace<M, E>(items: seq<M>, error: Option<E>): seq<Event<M, E>> {
    MessageEvents(items) + [if error.Some? then Error(error.value) else Complete]
  }

  lemma {:induction false} MessageEventsConcat<M, E>(items: seq<M>, m: M)
    ensures MessageEvents<M, E>(items + [m]) == MessageEvents(items) + [Message(m)]
  {
    if items == [] {
    } else {
      assert (items + [m])[1..] == items[1..] + [m];
      MessageEventsConcat<M, E>(items[1..], m);
    }
  }

  /** `ArrayStream.start`. */
  method StartArray<M, E>(items: seq<M>, error: Option<E>) returns (emitted: seq<Event<M, E>>)
    ensures emitted == ArrayTrace(items, error)
  {
    emitted := [];
    for i := 0 to |items|
      invariant emitted == MessageEvents(items[..i])
    {
      assert items[..i + 1] == items[..i] + [items[i]];
      MessageEventsConcat<M, E>(items[..i], items[i]);
      emitted := emitted + [Message(items[i])];
    }
    assert items[..|items|] == items;
    if error.Some? {
      emitted := emitted + [Error(error.value)];
    } else {
      emitted := emitted + [Complete];
    }
  }

  /** What `ArrayStream` is for: its promise is the array, or the error. */
  lemma ArrayPromise<M, E>(items: seq<M>, error: Option<E>)
    ensures PromiseOf(ArrayTrace(items, error)) == Some(
            match error
            case None => Ok(items)
            case Some(err) => Err(StreamError(err)))
  {
    hide Collect;
    CollectItems<M, E>(Collector([], None), items, if error.Some? then Error(error.value) else Complete);
    assert [] + items == items;
  }

  lemma {:induction false} CollectItems<M, E>(c: Collector<M, E>, items: seq<M>, end: Event<M, E>)
    ensures Collect(c, MessageEvents(items) + [end])
         == OnCollected(c.(messages := c.messages + items), end)
    decreases items
  {
    var trace := MessageEvents<M, E>(items) + [end];
    if items == [] {
      assert trace == [end] && trace[1..] == [] && c.messages + items == c.messages;
    } else {
      var next := c.(messages := c.messages + [items[0]]);
      assert trace[0] == Message(items[0]) && trace[1..] == MessageEvents<M, E>(items[1..]) + [end];
      CollectItems(next, items[1..], end);
      assert c.messages + [items[0]] + items[1..] == c.messages + items;
    }
  }

  lemma {:induction false} ArrayMessages<M, E>(items: seq<M>)
    ensures Messages(MessageEvents<M, E>(items)) == items
    ensures Retrier.IsBody(MessageEvents<M, E>(items)) && !Retrier.HasReady(MessageEvents<M, E>(items))
    ensures Retrier.Visible(MessageEvents<M, E>(items)) == []
  {
    if items == [] {
    } else {
      var rest := MessageEvents<M, E>(items[1..]);
      ArrayMessages<M, E>(items[1..]);
      assert MessageEvents<M, E>(items)[1..] == rest;
      Retrier.HasReadyConcat(Message(items[0]), rest);
    }
  }

  function ArrayAttempt<M, E>(items: seq<M>, error: Option<E>): Retrier.Attempt<M, E> {
    Retrier.Attempt(MessageEvents(items), if error.Some? then Error(error.value) else Complete)
  }

  function ArrayAttempts<M, E>(arrays: seq<(seq<M>, Option<E>)>): seq<Retrier.Attempt<M, E>> {
    if arrays == [] then [] else [ArrayAttempt(arrays[0].0, arrays[0].1)] + ArrayAttempts(arrays[1..])
  }

  lemma ArrayAttemptMeaning<M, E>(items: seq<M>, error: Option<E>)
    ensures var a: Retrier.Attempt<M, E> := ArrayAttempt(items, error);
            Retrier.IsAttempt(a) && Messages(Retrier.Visible(a.body)) == []
  {
    hide MessageEvents;
    ArrayMessages<M, E>(items);
    Retrier.NothingDelivered<M, E>();
  }

  lemma {:induction false} ArraysDeliverNothing<M, E>(
      p: Retrier.Policy<E>, arrays: seq<(seq<M>, Option<E>)>, retries: nat)
    ensures Retrier.AreAttempts(ArrayAttempts(arrays))
    ensures Retrier.DeliveredMessages(p, ArrayAttempts(arrays), retries) == []
    decreases arrays
  {
    hide Retrier.MayRetry, Retrier.Visible, Retrier.RetriesAfter, Retrier.IsAttempt, Messages, ArrayAttempt;
    if arrays == [] {
    } else {
      var a, rest := ArrayAttempt(arrays[0].0, arrays[0].1), ArrayAttempts(arrays[1..]);
      ArrayAttemptMeaning(arrays[0].0, arrays[0].1);
      ArraysDeliverNothing(p, arrays[1..], Retrier.RetriesAfter(a.body, retries) + 1);
      assert ArrayAttempts(arrays) == [a] + rest && ([a] + rest)[1..] == rest;
      assert forall i :: 1 <= i < |[a] + rest| ==> ([a] + rest)[i] == rest[i - 1];
    }
  }

  /**
   * A retried array stream delivers none of its messages, since it never emits `ready`; the
   * retrier's own example of use is such a stream.
   */
  lemma RetriedArraysDeliverNothing<M, E>(p: Retrier.Policy<E>, arrays: seq<(seq<M>, Option<E>)>, retries: nat)
    ensures Messages(Retrier.Concatenation(p, ArrayAttempts(arrays), retries)) == []
  {
    hide Retrier.Concatenation, Retrier.DeliveredMessages, ArrayAttempts;
    ArraysDeliverNothing(p, arrays, retries);
    Retrier.ConcatenationMessages(p, ArrayAttempts(arrays), retries);
  }
}
