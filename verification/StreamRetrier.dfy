/** The retrying stream: an asynchronous loop over attempts, with a counter and a backoff. */
module StreamRetrier {
  import opened Wrappers
  import opened Streams
  import opened Backoff

  datatype Policy<!E> = Policy(options: BackoffOptions, shouldRetry: E -> bool)

  datatype State = IsInitial | IsStarted | IsReady | IsCanceled | IsAbandoned | IsComplete

  /** Where the loop of `asyncStart` stands. */
  datatype Phase =
    | NotStarted
    | Attempting    // the loop awaits the current stream
    | Sleeping      // so it does, during the backoff
    | Settled       // the awaited promise is resolved, the loop has not gone on yet
    | Finished

  datatype Retrier<+M, +E> = Retrier(
    state: State,
    phase: Phase,
    retries: nat,
    streams: nat,                // streams opened so far
    sleeps: seq<nat>,           // durations slept so far
    out: seq<Event<M, E>>)

  datatype Input<+M, +E> =
    | Start
    | Inner(event: Event<M, E>) // an event of the latest stream
    | Wake                      // a sleep elapses
    | Continue                  // the loop goes on after its `await`
    | Cancel                    // the caller cancels

  function NewRetrier<M, E>(): Retrier<M, E> {
    Retrier(IsInitial, NotStarted, 0, 0, [], [])
  }

  predicate Abandons<E>(p: Policy<E>, retries: nat, err: E) {
    (p.options.maxRetries >= 0 && retries >= p.options.maxRetries) || !p.shouldRetry(err)
  }

  predicate IsOver(s: State) {
    s == IsComplete || s == IsCanceled || s == IsAbandoned
  }

  /** The test at the head of the loop. */
  function LoopTurn<M, E>(r: Retrier<M, E>): Retrier<M, E> {
    if IsOver(r.state) then r.(phase := Finished) else r.(phase := Attempting, streams := r.streams + 1)
  }

  /** The promise the loop awaits is resolved, once. */
  function Settle<M, E>(r: Retrier<M, E>): Retrier<M, E> {
    if r.phase == Attempting || r.phase == Sleeping then r.(phase := Settled) else r
  }

  function Emit<M, E>(r: Retrier<M, E>, e: Event<M, E>): Retrier<M, E> {
    r.(out := r.out + [e])
  }

  /** The listeners that `attempt` registers; they stay on the stream when its attempt is over. */
  function OnInner<M, E>(p: Policy<E>, r: Retrier<M, E>, e: Event<M, E>): Retrier<M, E> {
    match e
    case Ready => Emit(r, Ready).(state := IsReady, retries := 0)
    case Message(m) => if r.state == IsReady then Emit(r, e) else r
    case Complete => Settle(Emit(r.(state := IsComplete), Complete))
    case Canceled => Settle(Emit(r.(state := IsCanceled), Canceled))
    case Error(err) =>
      if Abandons(p, r.retries, err) then
        Settle(Emit(Emit(r.(state := IsAbandoned), RetryingError(err, r.retries, true)), Error(err)))
      else
        Emit(r.(state := IsStarted, phase := if r.phase == Attempting then Sleeping else r.phase),
             RetryingError(err, r.retries, false))
        .(sleeps := r.sleeps + [GetBackoffMs(p.options, r.retries)], retries := r.retries + 1)
    case RetryingError(_, _, _) => r
  }

  /** The stream that `cancel` reaches: the loop forgets it when it goes on. */
  predicate HasCurrent<M, E>(r: Retrier<M, E>) {
    r.phase == Attempting || r.phase == Sleeping || r.phase == Settled
  }

  /** Canceling a stream makes it emit `canceled` at once. */
  function Step<M, E>(p: Policy<E>, r: Retrier<M, E>, input: Input<M, E>): Retrier<M, E> {
    match input
    case Start => if r.state != IsInitial then r else LoopTurn(r.(state := IsStarted))
    case Inner(e) => if r.streams == 0 then r else OnInner(p, r, e)
    case Wake => if r.phase == Sleeping then Settle(r) else r
    case Continue => if r.phase == Settled then LoopTurn(r) else r
    case Cancel =>
      var canceled := r.(state := IsCanceled);
      if HasCurrent(r) then OnInner(p, canceled, Canceled) else canceled
  }

  function Run<M, E>(p: Policy<E>, r: Retrier<M, E>, inputs: seq<Input<M, E>>): Retrier<M, E>
    decreases inputs
  {
    if inputs == [] then r else Run(p, Step(p, r, inputs[0]), inputs[1..])
  }

  // The class

  class RetryingStreamImpl<M, E> {
    const policy: Policy<E>
    var state: State
    var cancelCurrentStream: Option<nat>   // the number of the stream that `cancel` reaches
    var retriesSinceLastReady: nat
    var phase: Phase
    var streams: nat
    var sleeps: seq<nat>
    var emitted: seq<Event<M, E>>

    ghost predicate Valid()
      reads this
    {
      && (phase == NotStarted <==> streams == 0)
      && cancelCurrentStream == if HasCurrent(Abs()) then Some(streams - 1) else None
    }

    ghost function Abs(): Retrier<M, E>
      reads this
    {
      Retrier(state, phase, retriesSinceLastReady, streams, sleeps, emitted)
    }

    constructor (policy: Policy<E>)
      ensures Valid() && Abs() == NewRetrier() && this.policy == policy
    {
      this.policy := policy;
      state, phase, cancelCurrentStream := IsInitial, NotStarted, None;
      retriesSinceLastReady, streams, sleeps, emitted := 0, 0, [], [];
    }

    method EmitEvent(e: Event<M, E>)
      modifies this`emitted
      ensures Abs() == Emit(old(Abs()), e)
    {
      emitted := emitted + [e];
    }

    /** The callback that resolves the awaited promise. */
    method Accept()
      requires Valid()
      modifies this`phase
      ensures Valid() && Abs() == Settle(old(Abs()))
    {
      if phase == Attempting || phase == Sleeping {
        phase := Settled;
      }
    }

    /** One turn of the loop: leaves it, or opens a stream. */
    method NextTurn()
      requires state != IsInitial
      modifies this`phase, this`streams, this`cancelCurrentStream
      ensures Abs() == LoopTurn(old(Abs()))
      ensures cancelCurrentStream == if phase == Attempting then Some(streams - 1) else None
    {
      cancelCurrentStream := None;
      if state == IsComplete || state == IsCanceled || state == IsAbandoned {
        phase := Finished;
      } else {
        cancelCurrentStream := Some(streams);
        phase, streams := Attempting, streams + 1;
      }
    }

    method StartRetrying() returns (threw: bool)
      requires Valid() && (state == IsInitial ==> phase == NotStarted)
      modifies this
      ensures Valid() && Abs() == Step(policy, old(Abs()), Start)
      ensures threw == (old(state) != IsInitial)
    {
      threw := state != IsInitial;
      if threw {
        return;
      }
      state := IsStarted;
      NextTurn();
    }

    /** The continuation after the `await`. */
    method ContinueLoop()
      requires Valid() && phase == Settled && state != IsInitial
      modifies this
      ensures Valid() && Abs() == Step(policy, old(Abs()), Continue)
    {
      NextTurn();
    }

    /** The listeners `attempt` registers. */
    method StreamEvent(e: Event<M, E>)
      requires Valid() && streams > 0
      modifies this
      ensures Valid() && Abs() == Step(policy, old(Abs()), Inner(e))
    {
      match e
      case Ready =>
        state := IsReady;
        EmitEvent(Ready);
        retriesSinceLastReady := 0;
      case Message(m) =>
        if state == IsReady {
          EmitEvent(e);
        }
      case Complete =>
        state := IsComplete;
        EmitEvent(Complete);
        Accept();
      case Error(err) =>
        var exhausted := policy.options.maxRetries >= 0 && retriesSinceLastReady >= policy.options.maxRetries;
        if exhausted || !policy.shouldRetry(err) {
          state := IsAbandoned;
          EmitEvent(RetryingError(err, retriesSinceLastReady, true));
          EmitEvent(Error(err));
          Accept();
        } else {
          state := IsStarted;
          EmitEvent(RetryingError(err, retriesSinceLastReady, false));
          sleeps := sleeps + [GetBackoffMs(policy.options, retriesSinceLastReady)];
          retriesSinceLastReady := retriesSinceLastReady + 1;
          if phase == Attempting {
            phase := Sleeping;
          }
        }
      case Canceled =>
        state := IsCanceled;
        EmitEvent(Canceled);
        Accept();
      case RetryingError(_, _, _) =>
    }

    method SleepElapsed()
      requires Valid() && phase == Sleeping
      modifies this`phase
      ensures Valid() && Abs() == Step(policy, old(Abs()), Wake)
    {
      Accept();
    }

    method CancelStream()
      requires Valid()
      modifies this
      ensures Valid() && Abs() == Step(policy, old(Abs()), Cancel)
    {
      state := IsCanceled;
      if cancelCurrentStream.Some? {
        // The stream emits `canceled`, which reaches the listener above.
        StreamEvent(Canceled);
      }
    }
  }

  // Well-behaved streams

  /** A well-behaved stream emits nothing once its attempt has ended. */
  predicate Proper<M, E>(r: Retrier<M, E>, input: Input<M, E>) {
    input.Inner? ==> r.phase == Attempting
  }

  /** A run over well-behaved streams. */
  predicate ProperRun<M, E>(p: Policy<E>, r: Retrier<M, E>, inputs: seq<Input<M, E>>)
    decreases inputs
  {
    inputs == [] || (Proper(r, inputs[0]) && ProperRun(p, Step(p, r, inputs[0]), inputs[1..]))
  }

  // The single terminal event

  /** No terminal event, or a single one in the last place. */
  predicate EndsOnce<M, E>(events: seq<Event<M, E>>, ended: bool) {
    if ended then IsTrace(events) else IsOpen(events)
  }

  /** The loop is left, or will be when it goes on. */
  predicate Done<M, E>(r: Retrier<M, E>) {
    r.phase == Finished || (r.phase == Settled && IsOver(r.state))
  }

  /**
   * The retrying stream is done and still says something: the caller cancels before the loop has
   * gone on, or the last stream emits an event.
   */
  predicate Late<M, E>(r: Retrier<M, E>, input: Input<M, E>) {
    && Done(r)
    && match input
       case Cancel => r.phase == Settled
       case Inner(e) => !e.Message? && !e.RetryingError?
       case _ => false
  }

  predicate NothingLate<M, E>(p: Policy<E>, r: Retrier<M, E>, inputs: seq<Input<M, E>>)
    decreases inputs
  {
    inputs == [] || (!Late(r, inputs[0]) && NothingLate(p, Step(p, r, inputs[0]), inputs[1..]))
  }

  predicate StatesAgree(s: State, phase: Phase) {
    match phase
    case NotStarted => s == IsInitial || s == IsCanceled
    case Attempting => !IsOver(s) && s != IsInitial
    case Sleeping => !IsOver(s) && s != IsInitial
    case Settled => s != IsInitial
    case Finished => IsOver(s)
  }

  predicate InOrder<M, E>(r: Retrier<M, E>) {
    && StatesAgree(r.state, r.phase)
    && EndsOnce(r.out, Done(r))
    && (r.phase == NotStarted <==> r.streams == 0)
  }

  /** Some event follows a terminal one. */
  predicate Spoiled<M, E>(r: Retrier<M, E>) {
    exists i :: 0 <= i < |r.out| - 1 && IsTerminal(r.out[i])
  }

  lemma OutGrows<M, E>(p: Policy<E>, r: Retrier<M, E>, input: Input<M, E>)
    ensures r.out <= Step(p, r, input).out
  {
    hide Abandons, GetBackoffMs;
  }

  lemma {:induction false} StaysSpoiled<M, E>(p: Policy<E>, r: Retrier<M, E>, inputs: seq<Input<M, E>>)
    requires Spoiled(r)
    ensures Spoiled(Run(p, r, inputs))
    decreases inputs
  {
    hide Step;
    if inputs == [] {
    } else {
      OutGrows(p, r, inputs[0]);
      var i :| 0 <= i < |r.out| - 1 && IsTerminal(r.out[i]);
      assert Step(p, r, inputs[0]).out[i] == r.out[i];
      StaysSpoiled(p, Step(p, r, inputs[0]), inputs[1..]);
    }
  }

  lemma OneMoreEvent<M, E>(trace: seq<Event<M, E>>, e: Event<M, E>)
    requires EndsOnce(trace, false)
    ensures EndsOnce(trace + [e], IsTerminal(e))
  {
    if trace != [] {
      assert (trace + [e])[|trace| - 1] == trace[|trace| - 1];
    }
  }

  lemma TimelyEvent<M, E>(p: Policy<E>, r: Retrier<M, E>, e: Event<M, E>)
    requires InOrder(r) && r.streams > 0 && !Late(r, Inner(e))
    ensures InOrder(OnInner(p, r, e))
  {
    hide Abandons, GetBackoffMs, EndsOnce;
    if !Done(r) {
      OneMoreEvent(r.out, e);
      if e.Error? {
        var last, retried := RetryingError(e.error, r.retries, true), RetryingError(e.error, r.retries, false);
        OneMoreEvent(r.out, retried);
        OneMoreEvent(r.out, last);
        OneMoreEvent(r.out + [last], e);
      }
    }
  }

  lemma CanceledInOrder<M, E>(p: Policy<E>, r: Retrier<M, E>)
    requires InOrder(r) && HasCurrent(r) && !Done(r)
    ensures InOrder(OnInner(p, r.(state := IsCanceled), Canceled))
  {
    hide EndsOnce;
    OneMoreEvent(r.out, Canceled);
  }

  lemma TimelyStep<M, E>(p: Policy<E>, r: Retrier<M, E>, input: Input<M, E>)
    requires InOrder(r) && !Late(r, input)
    ensures InOrder(Step(p, r, input))
  {
    hide OnInner, EndsOnce;
    match input
    case Inner(e) =>
      if r.streams > 0 {
        TimelyEvent(p, r, e);
      }
    case Cancel =>
      if HasCurrent(r) {
        CanceledInOrder(p, r);
      }
    case _ =>
  }

  lemma LateStep<M, E>(p: Policy<E>, r: Retrier<M, E>, input: Input<M, E>)
    requires InOrder(r) && Late(r, input)
    ensures Spoiled(Step(p, r, input))
  {
    hide Abandons, GetBackoffMs;
    var s, last := Step(p, r, input), |r.out| - 1;
    OutGrows(p, r, input);
    assert |s.out| > |r.out| && s.out[last] == r.out[last];
  }

  lemma {:induction false} InOrderIffTimely<M, E>(p: Policy<E>, r: Retrier<M, E>, inputs: seq<Input<M, E>>)
    requires InOrder(r)
    ensures NothingLate(p, r, inputs) ==> InOrder(Run(p, r, inputs))
    ensures !NothingLate(p, r, inputs) ==> Spoiled(Run(p, r, inputs))
    decreases inputs
  {
    hide InOrder, Step, Late, Spoiled;
    if inputs == [] {
    } else {
      if Late(r, inputs[0]) {
        LateStep(p, r, inputs[0]);
        StaysSpoiled(p, Step(p, r, inputs[0]), inputs[1..]);
      } else {
        TimelyStep(p, r, inputs[0]);
        InOrderIffTimely(p, Step(p, r, inputs[0]), inputs[1..]);
      }
    }
  }

  /**
   * Single terminal event, over all runs, whatever the streams emit: the output holds no terminal
   * event until the retrying stream is done, and then exactly one, in the last place, if and only
   * if nothing is late: no cancel between the event that ends the stream and the continuation of
   * the loop, no event of a stream whose attempt was the last.
   */
  lemma SingleTerminalEvent<M, E>(p: Policy<E>, inputs: seq<Input<M, E>>)
    ensures var r := Run(p, NewRetrier<M, E>(), inputs);
            EndsOnce(r.out, Done(r)) <==> NothingLate(p, NewRetrier<M, E>(), inputs)
  {
    hide Run, NothingLate;
    InOrderIffTimely(p, NewRetrier<M, E>(), inputs);
  }

  // Well-behaved streams: only a cancel can be late

  predicate IsLateCancel<M, E>(r: Retrier<M, E>, input: Input<M, E>) {
    input.Cancel? && r.phase == Settled && IsOver(r.state)
  }

  /** The cancels that fall between the end of a stream and the continuation of the loop. */
  function LateCancels<M, E>(p: Policy<E>, r: Retrier<M, E>, inputs: seq<Input<M, E>>): nat
    decreases inputs
  {
    if inputs == [] then 0
    else (if IsLateCancel(r, inputs[0]) then 1 else 0) + LateCancels(p, Step(p, r, inputs[0]), inputs[1..])
  }

  predicate AllCanceled<M, E>(events: seq<Event<M, E>>) {
    forall i :: 0 <= i < |events| ==> events[i] == Canceled
  }

  /** A trace with at most one terminal event, its last, then `late` repeated `canceled` events. */
  predicate TraceThenCancels<M, E>(out: seq<Event<M, E>>, late: nat, ended: bool) {
    && late <= |out|
    && EndsOnce(out[..|out| - late], ended)
    && AllCanceled(out[|out| - late..])
    && (late > 0 ==> ended)
  }

  predicate Shaped<M, E>(r: Retrier<M, E>, late: nat) {
    && StatesAgree(r.state, r.phase)
    && TraceThenCancels(r.out, late, Done(r))
    && (r.phase == NotStarted <==> r.streams == 0)
  }

  lemma ProperStep<M, E>(p: Policy<E>, r: Retrier<M, E>, input: Input<M, E>, late: nat)
    requires Shaped(r, late) && Proper(r, input)
    ensures Shaped(Step(p, r, input), late + if IsLateCancel(r, input) then 1 else 0)
  {
    if IsLateCancel(r, input) {
      var n := |r.out| - late;
      assert (r.out + [Canceled])[..n] == r.out[..n];
      assert (r.out + [Canceled])[n..] == r.out[n..] + [Canceled];
    } else if late > 0 {
      hide TraceThenCancels, OnInner;
      assert Done(r) by { DoneWhenLate(r, late); }
    } else {
      hide OnInner, EndsOnce, Late;
      assert forall s: Retrier<M, E> :: s.out[..|s.out| - 0] == s.out;
      assert !Late(r, input) by { ProperIsTimely(r, input); }
      TimelyStep(p, r, input);
    }
  }

  lemma DoneWhenLate<M, E>(r: Retrier<M, E>, late: nat)
    requires Shaped(r, late) && late > 0
    ensures Done(r)
  {
  }

  lemma ProperIsTimely<M, E>(r: Retrier<M, E>, input: Input<M, E>)
    requires Proper(r, input) && !IsLateCancel(r, input)
    ensures !Late(r, input)
  {
  }

  lemma {:induction false} ProperRunShape<M, E>(p: Policy<E>, r: Retrier<M, E>, inputs: seq<Input<M, E>>, late: nat)
    requires Shaped(r, late) && ProperRun(p, r, inputs)
    ensures Shaped(Run(p, r, inputs), late + LateCancels(p, r, inputs))
    decreases inputs
  {
    hide Shaped, Step, Proper, IsLateCancel;
    if inputs == [] {
    } else {
      ProperStep(p, r, inputs[0], late);
      ProperRunShape(p, Step(p, r, inputs[0]), inputs[1..], late + if IsLateCancel(r, inputs[0]) then 1 else 0);
    }
  }

  /**
   * Over well-behaved streams, the output is a trace with a single terminal event, then one more
   * `canceled` for each cancel between the end of a stream and the continuation of the loop: the
   * terminal event is single if and only if there is no such cancel.
   */
  lemma LateCancelsRepeat<M, E>(p: Policy<E>, inputs: seq<Input<M, E>>)
    requires ProperRun(p, NewRetrier<M, E>(), inputs)
    ensures var r, late := Run(p, NewRetrier<M, E>(), inputs), LateCancels(p, NewRetrier<M, E>(), inputs);
            && TraceThenCancels(r.out, late, Done(r))
            && (EndsOnce(r.out, Done(r)) <==> late == 0)
  {
    hide Run, LateCancels, ProperRun;
    ProperRunShape(p, NewRetrier<M, E>(), inputs, 0);
    var r, late := Run(p, NewRetrier<M, E>(), inputs), LateCancels(p, NewRetrier<M, E>(), inputs);
    var n := |r.out| - late;
    if late > 0 {
      assert r.out[..n][n - 1] == r.out[n - 1];
    } else {
      assert r.out[..n] == r.out;
    }
  }

  /** Before the loop goes on, a second cancel repeats `canceled`, and a cancel may follow `complete`. */
  lemma TwoTerminalEvents<M, E>(p: Policy<E>)
    ensures var inputs := [Start, Cancel, Cancel];
            && ProperRun(p, NewRetrier<M, E>(), inputs)
            && Run(p, NewRetrier<M, E>(), inputs).out == [Canceled, Canceled]
    ensures var inputs := [Start, Inner(Complete), Cancel];
            && ProperRun(p, NewRetrier<M, E>(), inputs)
            && Run(p, NewRetrier<M, E>(), inputs).out == [Complete, Canceled]
  {
    var r := Step(p, NewRetrier<M, E>(), Start);
    assert Step(p, Step(p, r, Cancel), Cancel).out == [Canceled, Canceled];
    assert Step(p, Step(p, r, Inner(Complete)), Cancel).out == [Complete, Canceled];
    var twice: seq<Input<M, E>>, after: seq<Input<M, E>> := [Start, Cancel, Cancel], [Start, Inner(Complete), Cancel];
    assert twice[1..] == [Cancel, Cancel] && twice[1..][1..] == [Cancel] && twice[1..][1..][1..] == [];
    assert after[1..] == [Inner(Complete), Cancel] && after[1..][1..] == [Cancel] && after[1..][1..][1..] == [];
  }

  // Retrying, in the words of its documentation

  /** An error is retried if the policy wants it and retries are left; a negative number has no limit. */
  predicate MayRetry<E>(p: Policy<E>, retries: nat, err: E) {
    p.shouldRetry(err) && (p.options.maxRetries < 0 || retries < p.options.maxRetries)
  }

  /** An error of an attempt leads to a backoff sleep exactly when it may be retried; else it ends the stream. */
  lemma RetryDecision<M, E>(p: Policy<E>, r: Retrier<M, E>, err: E)
    requires r.phase == Attempting && r.streams > 0
    ensures var s := Step(p, r, Inner(Error(err)));
            && (s.phase == Sleeping <==> MayRetry(p, r.retries, err))
            && (if MayRetry(p, r.retries, err) then
                  && s.state == IsStarted && s.retries == r.retries + 1
                  && s.sleeps == r.sleeps + [GetBackoffMs(p.options, r.retries)]
                  && s.out == r.out + [RetryingError(err, r.retries, false)]
                else
                  && s.phase == Settled && s.state == IsAbandoned && s.sleeps == r.sleeps
                  && s.out == r.out + [RetryingError(err, r.retries, true), Error(err)])
  {
    hide GetBackoffMs;
    var last: seq<Event<M, E>> := [RetryingError(err, r.retries, true)];
    assert r.out + last + [Error(err)] == r.out + (last + [Error(err)]);
  }

  /**
   * The loop goes on only after its `await`: an elapsed sleep merely resolves the awaited promise, and
   * the continuation leaves the loop or opens exactly one stream.
   */
  lemma LoopGoesOn<M, E>(p: Policy<E>, r: Retrier<M, E>)
    ensures r.phase == Sleeping ==> Step(p, r, Wake) == r.(phase := Settled)
    ensures r.phase == Settled ==>
              var over := r.state == IsComplete || r.state == IsCanceled || r.state == IsAbandoned;
              Step(p, r, Continue)
              == r.(phase := if over then Finished else Attempting, streams := r.streams + if over then 0 else 1)
    ensures r.phase != Sleeping ==> Step(p, r, Wake) == r
    ensures r.phase != Settled ==> Step(p, r, Continue) == r
  {
  }

  /** The failures that are retried since the last `ready`. */
  function Failures<M, E>(out: seq<Event<M, E>>): nat {
    if out == [] then 0
    else
      var last, before := out[|out| - 1], out[..|out| - 1];
      if last.Ready? then 0
      else if last.RetryingError? && !last.abandoned then Failures(before) + 1
      else Failures(before)
  }

  /** The sleeps that the reported errors call for. */
  function Waits<M, E>(o: BackoffOptions, out: seq<Event<M, E>>): seq<nat> {
    if out == [] then []
    else
      var last, before := out[|out| - 1], Waits(o, out[..|out| - 1]);
      if last.RetryingError? && !last.abandoned then before + [GetBackoffMs(o, last.retries)] else before
  }

  predicate IsAbandoning<M, E>(e: Event<M, E>) {
    e.RetryingError? && e.abandoned
  }

  /** What a reported error says, behind the events before it; an abandoning one is followed by its error. */
  ghost predicate NoteIsRight<M, E>(p: Policy<E>, before: seq<Event<M, E>>, e: Event<M, E>) {
    var abandoning := before != [] && IsAbandoning(before[|before| - 1]);
    && (e.Error? <==> abandoning)
    && (e.Error? ==> before[|before| - 1] == RetryingError(e.error, Failures(before), true))
    && (e.RetryingError? ==>
          e.retries == Failures(before) && (e.abandoned <==> !MayRetry(p, e.retries, e.error)))
  }

  ghost predicate NotesAreRight<M, E>(p: Policy<E>, out: seq<Event<M, E>>) {
    out == [] || (NoteIsRight(p, out[..|out| - 1], out[|out| - 1]) && NotesAreRight(p, out[..|out| - 1]))
  }

  ghost predicate Noted<M, E>(p: Policy<E>, r: Retrier<M, E>) {
    && NotesAreRight(p, r.out) && r.retries == Failures(r.out) && r.sleeps == Waits(p.options, r.out)
    && (r.out != [] ==> !IsAbandoning(r.out[|r.out| - 1]))
  }

  lemma FailuresOfEmit<M, E>(out: seq<Event<M, E>>, e: Event<M, E>)
    ensures Failures(out + [e]) ==
            if e.Ready? then 0 else if e.RetryingError? && !e.abandoned then Failures(out) + 1 else Failures(out)
  {
    assert (out + [e])[..|out|] == out;
  }

  lemma WaitsOfEmit<M, E>(o: BackoffOptions, out: seq<Event<M, E>>, e: Event<M, E>)
    ensures Waits(o, out + [e])
         == if e.RetryingError? && !e.abandoned then Waits(o, out) + [GetBackoffMs(o, e.retries)] else Waits(o, out)
  {
    hide GetBackoffMs;
    assert (out + [e])[..|out|] == out;
  }

  lemma NotesOfEmit<M, E>(p: Policy<E>, out: seq<Event<M, E>>, e: Event<M, E>)
    ensures NotesAreRight(p, out + [e]) <==> NotesAreRight(p, out) && NoteIsRight(p, out, e)
  {
    hide NoteIsRight;
    assert (out + [e])[..|out|] == out;
  }

  /** Noting one more event. */
  lemma NotedEmit<M, E>(p: Policy<E>, out: seq<Event<M, E>>, e: Event<M, E>)
    requires NotesAreRight(p, out) && NoteIsRight(p, out, e)
    ensures NotesAreRight(p, out + [e])
    ensures Failures(out + [e]) ==
            if e.Ready? then 0 else if e.RetryingError? && !e.abandoned then Failures(out) + 1 else Failures(out)
    ensures Waits(p.options, out + [e])
         == if e.RetryingError? && !e.abandoned then Waits(p.options, out) + [GetBackoffMs(p.options, e.retries)]
            else Waits(p.options, out)
  {
    hide NotesAreRight, Failures, Waits, GetBackoffMs, NoteIsRight;
    NotesOfEmit(p, out, e);
    FailuresOfEmit(out, e);
    WaitsOfEmit(p.options, out, e);
  }

  lemma NotedError<M, E>(p: Policy<E>, r: Retrier<M, E>, err: E)
    requires Noted(p, r)
    ensures Noted(p, OnInner(p, r, Error(err)))
  {
    hide NotesAreRight, Failures, Waits, GetBackoffMs, NoteIsRight;
    var last, retried := RetryingError(err, r.retries, true), RetryingError(err, r.retries, false);
    if Abandons(p, r.retries, err) {
      NoteIsRightBehind(p, r.out, last);
      NotedEmit(p, r.out, last);
      NoteIsRightBehind(p, r.out + [last], Error(err));
      NotedEmit(p, r.out + [last], Error(err));
    } else {
      NoteIsRightBehind(p, r.out, retried);
      NotedEmit(p, r.out, retried);
    }
  }

  lemma NoteIsRightBehind<M, E>(p: Policy<E>, before: seq<Event<M, E>>, e: Event<M, E>)
    ensures var abandoning := before != [] && IsAbandoning(before[|before| - 1]);
            NoteIsRight(p, before, e) <==>
            && (e.Error? <==> abandoning)
            && (e.Error? ==> before[|before| - 1] == RetryingError(e.error, Failures(before), true))
            && (e.RetryingError? ==>
                  e.retries == Failures(before) && (e.abandoned <==> Abandons(p, e.retries, e.error)))
  {
    hide Failures;
  }

  lemma NotedEvent<M, E>(p: Policy<E>, r: Retrier<M, E>, e: Event<M, E>)
    requires Noted(p, r)
    ensures Noted(p, OnInner(p, r, e))
  {
    hide NotesAreRight, Failures, Waits, NoteIsRight, Abandons, GetBackoffMs;
    if e.Error? {
      hide OnInner;
      NotedError(p, r, e.error);
    } else if !e.RetryingError? {
      NoteIsRightBehind(p, r.out, e);
      NotedEmit(p, r.out, e);
    }
  }

  lemma {:induction false} RunIsNoted<M, E>(p: Policy<E>, r: Retrier<M, E>, inputs: seq<Input<M, E>>)
    requires Noted(p, r)
    ensures Noted(p, Run(p, r, inputs))
    decreases inputs
  {
    hide Noted, OnInner;
    if inputs == [] {
    } else {
      StepIsNoted(p, r, inputs[0]);
      RunIsNoted(p, Step(p, r, inputs[0]), inputs[1..]);
    }
  }

  lemma StepIsNoted<M, E>(p: Policy<E>, r: Retrier<M, E>, input: Input<M, E>)
    requires Noted(p, r)
    ensures Noted(p, Step(p, r, input))
  {
    hide NotesAreRight, Failures, Waits, OnInner;
    match input
    case Inner(e) =>
      NotedEvent(p, r, e);
    case Cancel =>
      NotedEvent(p, r.(state := IsCanceled), Canceled);
    case _ =>
  }

  /**
   * Over all runs, whatever the streams emit: every error is reported with the number of failures
   * retried since the last `ready`, as abandoned exactly when it may not be retried; `error` is
   * emitted right behind an abandoned one and nowhere else; the sleeps are those of the others.
   */
  lemma ErrorsAreReported<M, E>(p: Policy<E>, inputs: seq<Input<M, E>>, i: nat)
    requires i < |Run(p, NewRetrier<M, E>(), inputs).out|
    ensures var r := Run(p, NewRetrier<M, E>(), inputs);
            && (r.out[i].RetryingError? ==>
                  && r.out[i].retries == Failures(r.out[..i])
                  && (r.out[i].abandoned <==> !MayRetry(p, r.out[i].retries, r.out[i].error))
                  && (r.out[i].abandoned ==> i + 1 < |r.out| && r.out[i + 1] == Error(r.out[i].error)))
            && (r.out[i].Error? ==> i > 0 && r.out[i - 1] == RetryingError(r.out[i].error, Failures(r.out[..i]), true))
            && r.retries == Failures(r.out) && r.sleeps == Waits(p.options, r.out)
  {
    hide Run, Failures, Waits, NotesAreRight;
    NothingNoted<M, E>(p);
    RunIsNoted(p, NewRetrier<M, E>(), inputs);
    var out := Run(p, NewRetrier<M, E>(), inputs).out;
    NoteAt(p, out, i);
    if i + 1 < |out| {
      NoteAt(p, out, i + 1);
      assert out[..i + 1][i] == out[i];
      if IsAbandoning(out[i]) {
        NextFailures(out, i);
      }
    }
    if i > 0 {
      assert out[..i][i - 1] == out[i - 1];
    }
  }

  lemma NothingNoted<M, E>(p: Policy<E>)
    ensures Noted(p, NewRetrier<M, E>())
  {
  }

  lemma NextFailures<M, E>(out: seq<Event<M, E>>, i: nat)
    requires i < |out| && IsAbandoning(out[i])
    ensures Failures(out[..i + 1]) == Failures(out[..i])
  {
    assert out[..i + 1][..i] == out[..i];
  }

  lemma {:induction false} NoteAt<M, E>(p: Policy<E>, out: seq<Event<M, E>>, i: nat)
    requires NotesAreRight(p, out) && i < |out|
    ensures NoteIsRight(p, out[..i], out[i])
  {
    var before := out[..|out| - 1];
    if i == |out| - 1 {
    } else {
      NoteAt(p, before, i);
      assert before[..i] == out[..i];
    }
  }

  /** Over well-behaved streams, there is one stream more than sleeps during an attempt, and as many during a sleep. */
  predicate StreamsMatchSleeps<M, E>(r: Retrier<M, E>) {
    && StatesAgree(r.state, r.phase)
    && |r.sleeps| <= r.streams + (if BetweenStreams(r) then 0 else 1)
    && r.streams <= |r.sleeps| + 1
    && (r.phase == NotStarted ==> r.streams == 0 && r.sleeps == [])
    && (r.phase == Attempting ==> r.streams == |r.sleeps| + 1)
    && (r.phase != NotStarted && BetweenStreams(r) ==> r.streams == |r.sleeps|)
  }

  lemma {:induction false} StreamsOpened<M, E>(p: Policy<E>, r: Retrier<M, E>, inputs: seq<Input<M, E>>)
    requires StreamsMatchSleeps(r) && ProperRun(p, r, inputs)
    ensures StreamsMatchSleeps(Run(p, r, inputs))
    decreases inputs
  {
    hide GetBackoffMs, Abandons;
    if inputs == [] {
    } else {
      StreamsOpened(p, Step(p, r, inputs[0]), inputs[1..]);
    }
  }

  // Cancellation and the end of the loop

  /** Once the loop is left, well-behaved streams keep it silent: nothing is emitted, slept or opened. */
  lemma {:induction false} FinishedIsFinal<M, E>(p: Policy<E>, r: Retrier<M, E>, inputs: seq<Input<M, E>>)
    requires r.phase == Finished && IsOver(r.state) && ProperRun(p, r, inputs)
    ensures var s := Run(p, r, inputs);
            s.phase == Finished && s.out == r.out && s.streams == r.streams && s.sleeps == r.sleeps
    decreases inputs
  {
    if inputs == [] {
    } else {
      FinishedIsFinal(p, Step(p, r, inputs[0]), inputs[1..]);
    }
  }

  /** The retrier says `canceled`, repeats it for late cancels only, and opens no stream any more. */
  ghost predicate CancelStops<M(!new), E(!new)>(p: Policy<E>, r: Retrier<M, E>) {
    var canceled := Step(p, r, Cancel);
    forall inputs :: ProperRun(p, canceled, inputs) ==>
      var s := Run(p, canceled, inputs);
      && r.out <= s.out && AllCanceled(s.out[|r.out|..])
      && |s.out| == |r.out| + 1 + LateCancels(p, canceled, inputs)
      && s.streams == r.streams && s.sleeps == r.sleeps
  }

  lemma {:induction false} AfterCancel<M, E>(p: Policy<E>, r: Retrier<M, E>, inputs: seq<Input<M, E>>)
    requires r.state == IsCanceled && (r.phase == Settled || r.phase == Finished) && ProperRun(p, r, inputs)
    ensures var s := Run(p, r, inputs);
            && r.out <= s.out && AllCanceled(s.out[|r.out|..])
            && |s.out| == |r.out| + LateCancels(p, r, inputs)
            && s.streams == r.streams && s.sleeps == r.sleeps
    decreases inputs
  {
    if inputs == [] {
    } else {
      AfterCancel(p, Step(p, r, inputs[0]), inputs[1..]);
    }
  }

  /**
   * A cancel makes the retrying stream say `canceled`, and stops it for good, exactly when the loop
   * is under way: during an attempt, a sleep, or before the loop goes on.
   */
  lemma CancelEndsRun<M(!new), E(!new)>(p: Policy<E>, r: Retrier<M, E>)
    ensures CancelStops(p, r) <==> r.phase == Attempting || r.phase == Sleeping || r.phase == Settled
  {
    hide Run, LateCancels;
    var canceled := Step(p, r, Cancel);
    if HasCurrent(r) {
      forall inputs | ProperRun(p, canceled, inputs)
        ensures var s := Run(p, canceled, inputs);
                && r.out <= s.out && AllCanceled(s.out[|r.out|..])
                && |s.out| == |r.out| + 1 + LateCancels(p, canceled, inputs)
                && s.streams == r.streams && s.sleeps == r.sleeps
      {
        AfterCancel(p, canceled, inputs);
        var s := Run(p, canceled, inputs);
        assert s.out[|r.out|] == Canceled && s.out[|r.out| + 1..] == s.out[|canceled.out|..];
        assert forall i :: 1 <= i < |s.out| - |r.out| ==> s.out[|r.out|..][i] == s.out[|canceled.out|..][i - 1];
      }
    } else {
      NoInputs(p, canceled);
    }
  }

  /** A stream canceled before it starts never starts, and never emits anything, `canceled` included. */
  lemma {:induction false} CancelBeforeStart<M, E>(p: Policy<E>, r: Retrier<M, E>, inputs: seq<Input<M, E>>)
    requires r.phase == NotStarted && r.streams == 0 && r.state == IsCanceled
    ensures Run(p, r, inputs) == r
    decreases inputs
  {
    if inputs == [] {
    } else {
      CancelBeforeStart(p, r, inputs[1..]);
    }
  }

  // The bounds

  function Readies<M, E>(trace: seq<Event<M, E>>): nat {
    if trace == [] then 0 else Readies(trace[..|trace| - 1]) + (if trace[|trace| - 1].Ready? then 1 else 0)
  }

  /** The latest sleeps are the backoff schedule from its start. */
  predicate OnSchedule<M, E>(p: Policy<E>, r: Retrier<M, E>) {
    && r.retries <= |r.sleeps|
    && forall i :: 0 <= i < r.retries ==> r.sleeps[|r.sleeps| - r.retries + i] == GetBackoffMs(p.options, i)
  }

  /** Whether the next stream is still to be opened. */
  predicate BetweenStreams<M, E>(r: Retrier<M, E>) {
    r.phase == NotStarted || r.phase == Sleeping || (r.phase == Settled && !IsOver(r.state))
  }

  predicate WithinBudget<M, E>(p: Policy<E>, r: Retrier<M, E>) {
    p.options.maxRetries >= 0 ==>
      && r.retries <= p.options.maxRetries
      && r.streams <= 1 + p.options.maxRetries * Readies(r.out) + r.retries - (if BetweenStreams(r) then 1 else 0)
  }

  predicate Invariant<M, E>(p: Policy<E>, r: Retrier<M, E>) {
    && StatesAgree(r.state, r.phase)
    && OnSchedule(p, r)
    && WithinBudget(p, r)
    && (r.phase == NotStarted ==> r.streams == 0 && r.retries == 0 && r.out == [])
  }

  lemma ReadiesOfEmit<M, E>(r: Retrier<M, E>, e: Event<M, E>)
    ensures Readies(Emit(r, e).out) == Readies(r.out) + (if e.Ready? then 1 else 0)
  {
    assert (r.out + [e])[..|r.out|] == r.out;
  }

  lemma OneMoreReady(m: int, n: nat, retries: nat)
    requires 0 <= retries <= m
    ensures m * n + retries <= m * (n + 1)
  {
  }

  lemma ErrorKeepsInvariant<M, E>(p: Policy<E>, r: Retrier<M, E>, err: E)
    requires Invariant(p, r) && r.phase == Attempting
    ensures Invariant(p, OnInner(p, r, Error(err)))
  {
    hide Readies, GetBackoffMs;
    var noted: Event<M, E> := RetryingError(err, r.retries, true);
    ReadiesOfEmit(r, noted);
    ReadiesOfEmit(Emit(r, noted), Error(err));
    ReadiesOfEmit(r, RetryingError(err, r.retries, false));
  }

  lemma EventKeepsInvariant<M, E>(p: Policy<E>, r: Retrier<M, E>, e: Event<M, E>)
    requires Invariant(p, r) && r.phase == Attempting && !e.Error?
    ensures Invariant(p, OnInner(p, r, e))
  {
    hide Readies, GetBackoffMs, Abandons;
    ReadiesOfEmit(r, e);
    if p.options.maxRetries >= 0 && e.Ready? {
      OneMoreReady(p.options.maxRetries, Readies(r.out), r.retries);
    }
  }

  lemma StepKeepsInvariant<M, E>(p: Policy<E>, r: Retrier<M, E>, input: Input<M, E>)
    requires Invariant(p, r) && Proper(r, input)
    ensures Invariant(p, Step(p, r, input))
  {
    if input.Inner? {
      hide Invariant, OnInner;
      if input.event.Error? {
        ErrorKeepsInvariant(p, r, input.event.error);
      } else {
        EventKeepsInvariant(p, r, input.event);
      }
    } else {
      hide Readies, GetBackoffMs, Abandons;
      ReadiesOfEmit(r, Canceled);
    }
  }

  lemma {:induction false} RunKeepsInvariant<M, E>(p: Policy<E>, r: Retrier<M, E>, inputs: seq<Input<M, E>>)
    requires Invariant(p, r) && ProperRun(p, r, inputs)
    ensures Invariant(p, Run(p, r, inputs))
    decreases inputs
  {
    hide Invariant, Step, Proper;
    if inputs == [] {
    } else {
      StepKeepsInvariant(p, r, inputs[0]);
      RunKeepsInvariant(p, Step(p, r, inputs[0]), inputs[1..]);
    }
  }

  lemma NewIsInvariant<M, E>(p: Policy<E>)
    ensures Invariant(p, NewRetrier<M, E>())
  {
  }

  /**
   * Attempt bound: with M retries allowed, the counter never exceeds M, and R `ready` events allow
   * at most (M + 1) * (R + 1) streams.
   */
  lemma AttemptBound<M, E>(p: Policy<E>, inputs: seq<Input<M, E>>)
    requires ProperRun(p, NewRetrier<M, E>(), inputs) && p.options.maxRetries >= 0
    ensures var r := Run(p, NewRetrier<M, E>(), inputs);
            && r.retries <= p.options.maxRetries
            && r.streams <= 1 + p.options.maxRetries * (Readies(r.out) + 1)
            && r.streams <= (p.options.maxRetries + 1) * (Readies(r.out) + 1)
  {
    hide ProperRun, Run, Readies;
    NewIsInvariant<M, E>(p);
    RunKeepsInvariant(p, NewRetrier<M, E>(), inputs);
    var r, m := Run(p, NewRetrier<M, E>(), inputs), p.options.maxRetries;
    var n := Readies(r.out);
    OneMoreReady(m, n, r.retries);
    assert (m + 1) * (n + 1) == m * (n + 1) + n + 1;
  }

  function Sum(ns: seq<nat>): nat {
    if ns == [] then 0 else Sum(ns[..|ns| - 1]) + ns[|ns| - 1]
  }

  lemma {:induction false} SumOfSchedule(o: BackoffOptions, ns: seq<nat>)
    requires forall i :: 0 <= i < |ns| ==> ns[i] == GetBackoffMs(o, i)
    ensures Sum(ns) == TotalWait(o, |ns|)
  {
    hide GetBackoffMs;
    if ns == [] {
    } else {
      SumOfSchedule(o, ns[..|ns| - 1]);
    }
  }

  /**
   * Backoff: over well-behaved streams, the sleeps since the last `ready` are the schedule from its
   * start; with M retries allowed and a cap, they add up to at most M times the cap.
   */
  lemma WaitBound<M, E>(p: Policy<E>, inputs: seq<Input<M, E>>)
    requires ProperRun(p, NewRetrier<M, E>(), inputs)
    ensures var r := Run(p, NewRetrier<M, E>(), inputs);
            && r.retries <= |r.sleeps|
            && (forall i :: 0 <= i < r.retries ==> r.sleeps[|r.sleeps| - r.retries + i] == GetBackoffMs(p.options, i))
            && Sum(r.sleeps[|r.sleeps| - r.retries..]) == TotalWait(p.options, r.retries)
            && (p.options.maxRetries >= 0 && p.options.maxBackoffMs > 0 ==>
                  TotalWait(p.options, r.retries) <= p.options.maxRetries * p.options.maxBackoffMs)
  {
    hide ProperRun, Run, Readies, GetBackoffMs, Sum;
    NewIsInvariant<M, E>(p);
    RunKeepsInvariant(p, NewRetrier<M, E>(), inputs);
    var r := Run(p, NewRetrier<M, E>(), inputs);
    SumOfSchedule(p.options, r.sleeps[|r.sleeps| - r.retries..]);
    if p.options.maxRetries >= 0 && p.options.maxBackoffMs > 0 {
      TotalWaitCapped(p.options, r.retries);
      ScaleMonotone(r.retries, p.options.maxRetries, p.options.maxBackoffMs);
    }
  }

  // Retrying refines concatenation

  /** What one stream emits: `ready` and messages, then one terminal event. */
  datatype Attempt<+M, +E> = Attempt(body: seq<Event<M, E>>, end: Event<M, E>)

  predicate IsAttempt<M, E>(a: Attempt<M, E>) {
    IsTerminal(a.end) && IsBody(a.body)
  }

  predicate IsBody<M, E>(body: seq<Event<M, E>>) {
    forall i :: 0 <= i < |body| ==> body[i].Ready? || body[i].Message?
  }

  predicate HasReady<M, E>(body: seq<Event<M, E>>) {
    exists i :: 0 <= i < |body| && body[i].Ready?
  }

  predicate AreAttempts<M, E>(attempts: seq<Attempt<M, E>>) {
    forall i :: 0 <= i < |attempts| ==> IsAttempt(attempts[i])
  }

  /** The body without the messages that precede `ready`. */
  function Visible<M, E>(body: seq<Event<M, E>>): seq<Event<M, E>> {
    if body == [] then []
    else if body[0].Ready? then body
    else Visible(body[1..])
  }

  function RetriesAfter<M, E>(body: seq<Event<M, E>>, retries: nat): nat {
    if HasReady(body) then 0 else retries
  }

  /** The output for a list of attempts. */
  function Concatenation<M, E>(p: Policy<E>, attempts: seq<Attempt<M, E>>, retries: nat): seq<Event<M, E>>
    decreases attempts
  {
    if attempts == [] then []
    else
      var a := attempts[0];
      var n := RetriesAfter(a.body, retries);
      Visible(a.body) +
      if !a.end.Error? then [a.end]
      else if MayRetry(p, n, a.end.error) then
        [RetryingError(a.end.error, n, false)] + Concatenation(p, attempts[1..], n + 1)
      else [RetryingError(a.end.error, n, true), a.end]
  }

  function InnerInputs<M, E>(body: seq<Event<M, E>>): seq<Input<M, E>> {
    if body == [] then [] else [Inner(body[0])] + InnerInputs(body[1..])
  }

  /** The run in which the attempts happen one after the other, each after the sleep of the former. */
  function AttemptInputs<M, E>(p: Policy<E>, attempts: seq<Attempt<M, E>>, retries: nat): seq<Input<M, E>>
    decreases attempts
  {
    if attempts == [] then []
    else
      var a := attempts[0];
      var n := RetriesAfter(a.body, retries);
      InnerInputs(a.body) + ([Inner(a.end)] +
      if a.end.Error? && MayRetry(p, n, a.end.error)
      then [Wake] + ([Continue] + AttemptInputs(p, attempts[1..], n + 1)) else [Continue] + [])
  }

  lemma {:induction false} RunConcat<M, E>(p: Policy<E>, r: Retrier<M, E>, a: seq<Input<M, E>>, b: seq<Input<M, E>>)
    ensures Run(p, r, a + b) == Run(p, Run(p, r, a), b)
    ensures ProperRun(p, r, a + b) <==> ProperRun(p, r, a) && ProperRun(p, Run(p, r, a), b)
    decreases a
  {
    hide Step, Proper;
    if a == [] {
      assert a + b == b;
    } else {
      assert (a + b)[1..] == a[1..] + b;
      RunConcat(p, Step(p, r, a[0]), a[1..], b);
    }
  }

  lemma RunFirst<M, E>(p: Policy<E>, r: Retrier<M, E>, input: Input<M, E>, inputs: seq<Input<M, E>>)
    ensures Run(p, r, [input] + inputs) == Run(p, Step(p, r, input), inputs)
    ensures ProperRun(p, r, [input] + inputs) <==> Proper(r, input) && ProperRun(p, Step(p, r, input), inputs)
  {
    hide Step, Proper;
    assert ([input] + inputs)[1..] == inputs;
  }

  /** The retrier after the body of one attempt. */
  function AfterBody<M, E>(r: Retrier<M, E>, body: seq<Event<M, E>>): Retrier<M, E> {
    r.(state := if HasReady(body) then IsReady else r.state,
       retries := RetriesAfter(body, r.retries),
       out := r.out + if r.state == IsReady then body else Visible(body))
  }

  lemma HasReadyConcat<M, E>(e: Event<M, E>, rest: seq<Event<M, E>>)
    ensures HasReady([e] + rest) <==> e.Ready? || HasReady(rest)
  {
    var body := [e] + rest;
    if e.Ready? {
      assert body[0].Ready?;
    } else if HasReady(rest) {
      var i :| 0 <= i < |rest| && rest[i].Ready?;
      assert body[i + 1].Ready?;
    }
  }

  lemma {:induction false} BodyRun<M, E>(p: Policy<E>, r: Retrier<M, E>, body: seq<Event<M, E>>)
    requires r.phase == Attempting && r.streams > 0 && (r.state == IsStarted || r.state == IsReady)
    requires IsBody(body)
    ensures ProperRun(p, r, InnerInputs(body)) && Run(p, r, InnerInputs(body)) == AfterBody(r, body)
    decreases body
  {
    if body == [] {
      assert r.out + [] == r.out;
    } else {
      var e, rest := body[0], body[1..];
      var s := OnInner(p, r, e);
      assert body == [e] + rest;
      BodyRun(p, s, rest);
      assert HasReady(body) <==> e == Ready || HasReady(rest) by {
        HasReadyConcat(e, rest);
      }
      assert AfterBody(s, rest) == AfterBody(r, body) by {
        assert r.out + [e] + rest == r.out + body;
      }
      RunFirst(p, r, Inner(e), InnerInputs(rest));
    }
  }

  /**
   * Retry refines concatenation: the output is the attempts joined, without the messages that
   * precede an attempt's `ready`, each retried error reported with the failures since the last
   * `ready`, and the abandoning one reported as abandoned and then emitted.
   */
  lemma {:induction false} RetryRefinesConcatenation<M, E>(p: Policy<E>, r: Retrier<M, E>, attempts: seq<Attempt<M, E>>)
    requires r.phase == Attempting && r.streams > 0 && r.state == IsStarted && AreAttempts(attempts)
    ensures var inputs := AttemptInputs(p, attempts, r.retries);
            && ProperRun(p, r, inputs)
            && Run(p, r, inputs).out == r.out + Concatenation(p, attempts, r.retries)
    decreases attempts
  {
    hide Run, ProperRun, Visible, InnerInputs, Step, MayRetry, RetriesAfter;
    if attempts == [] {
      NoInputs(p, r);
      assert r.out + [] == r.out;
    } else {
      var a := attempts[0];
      assert IsAttempt(a) && AreAttempts(attempts[1..]);
      var ready := AfterBody(r, a.body);
      var ended := Step(p, ready, Inner(a.end));
      BodyRun(p, r, a.body);
      EndOfAttempt(p, ready, a.end);
      if a.end.Error? && MayRetry(p, ready.retries, a.end.error) {
        var woken := Step(p, ended, Wake);
        var next := Step(p, woken, Continue);
        var later := AttemptInputs(p, attempts[1..], next.retries);
        RetryRefinesConcatenation(p, next, attempts[1..]);
        RunFirst(p, woken, Continue, later);
        RunFirst(p, ended, Wake, [Continue] + later);
        RunFirst(p, ready, Inner(a.end), [Wake] + ([Continue] + later));
        RunConcat(p, r, InnerInputs(a.body), [Inner(a.end)] + ([Wake] + ([Continue] + later)));
      } else {
        NoInputs(p, Step(p, ended, Continue));
        RunFirst(p, ended, Continue, []);
        RunFirst(p, ready, Inner(a.end), [Continue] + []);
        RunConcat(p, r, InnerInputs(a.body), [Inner(a.end)] + ([Continue] + []));
      }
    }
  }

  /** An attempt ends: the loop is left, or a sleep and then the next attempt follow. */
  lemma EndOfAttempt<M, E>(p: Policy<E>, r: Retrier<M, E>, end: Event<M, E>)
    requires r.phase == Attempting && r.streams > 0 && IsTerminal(end)
    ensures Proper(r, Inner(end)) && forall s: Retrier<M, E> :: Proper(s, Wake) && Proper(s, Continue)
    ensures var ended := Step(p, r, Inner(end));
            var next := Step(p, Step(p, ended, Wake), Continue);
            if end.Error? && MayRetry(p, r.retries, end.error) then
              && next.phase == Attempting && next.streams > 0 && next.state == IsStarted
              && next.retries == r.retries + 1
              && next.out == r.out + [RetryingError(end.error, r.retries, false)]
            else
              && Step(p, ended, Continue).phase == Finished
              && Step(p, ended, Continue).out
                 == r.out + if end.Error? then [RetryingError(end.error, r.retries, true), end] else [end]
  {
    hide GetBackoffMs;
  }

  lemma NoInputs<M, E>(p: Policy<E>, r: Retrier<M, E>)
    ensures ProperRun(p, r, []) && Run(p, r, []) == r && LateCancels(p, r, []) == 0
  {
  }

  // When all messages come through

  /** The messages of all the attempts that are made. */
  function AllMessages<M, E>(p: Policy<E>, attempts: seq<Attempt<M, E>>, retries: nat): seq<M>
    decreases attempts
  {
    if attempts == [] then []
    else
      var a := attempts[0];
      var n := RetriesAfter(a.body, retries);
      Messages(a.body) +
      if a.end.Error? && MayRetry(p, n, a.end.error) then AllMessages(p, attempts[1..], n + 1) else []
  }

  /** No attempt that is made emits a message before its `ready`. */
  predicate ReadyBeforeMessages<M, E>(p: Policy<E>, attempts: seq<Attempt<M, E>>, retries: nat)
    decreases attempts
  {
    attempts == [] ||
    var a := attempts[0];
    var n := RetriesAfter(a.body, retries);
    && (Messages(a.body) != [] ==> a.body[0].Ready?)
    && (a.end.Error? && MayRetry(p, n, a.end.error) ==> ReadyBeforeMessages(p, attempts[1..], n + 1))
  }

  lemma {:induction false} VisibleMessages<M, E>(body: seq<Event<M, E>>)
    requires IsBody(body)
    ensures |Messages(Visible(body))| <= |Messages(body)|
    ensures |Messages(Visible(body))| == |Messages(body)| <==> Messages(body) == [] || body[0].Ready?
    ensures Messages(body) == [] || body[0].Ready? ==> Messages(Visible(body)) == Messages(body)
  {
    if body != [] && !body[0].Ready? {
      VisibleMessages(body[1..]);
    }
  }

  lemma {:induction false} NoTerminalMessage<M, E>(a: seq<Event<M, E>>, e: Event<M, E>)
    requires !e.Message?
    ensures Messages(a + [e]) == Messages(a) && Messages([e]) == []
  {
    assert [e][1..] == [];
    MessagesConcat(a, [e]);
  }

  /** The messages of the concatenation, attempt by attempt. */
  function DeliveredMessages<M, E>(p: Policy<E>, attempts: seq<Attempt<M, E>>, retries: nat): seq<M>
    decreases attempts
  {
    if attempts == [] then []
    else
      var a := attempts[0];
      var n := RetriesAfter(a.body, retries);
      Messages(Visible(a.body)) +
      if a.end.Error? && MayRetry(p, n, a.end.error) then DeliveredMessages(p, attempts[1..], n + 1) else []
  }

  lemma {:induction false} ConcatenationMessages<M, E>(p: Policy<E>, attempts: seq<Attempt<M, E>>, retries: nat)
    requires AreAttempts(attempts)
    ensures Messages(Concatenation(p, attempts, retries)) == DeliveredMessages(p, attempts, retries)
    decreases attempts
  {
    hide Messages, Visible, MayRetry, RetriesAfter;
    if attempts == [] {
      NothingDelivered<M, E>();
    } else {
      var a := attempts[0];
      assert IsAttempt(a) && AreAttempts(attempts[1..]);
      var n, seen := RetriesAfter(a.body, retries), Visible(a.body);
      assert Messages(seen) + [] == Messages(seen);
      if a.end.Error? && MayRetry(p, n, a.end.error) {
        var noted, rest := RetryingError(a.end.error, n, false), Concatenation(p, attempts[1..], n + 1);
        ConcatenationMessages(p, attempts[1..], n + 1);
        assert seen + ([noted] + rest) == seen + [noted] + rest;
        MessagesConcat(seen + [noted], rest);
        NoTerminalMessage(seen, noted);
      } else if a.end.Error? {
        var noted := RetryingError(a.end.error, n, true);
        assert seen + [noted, a.end] == seen + [noted] + [a.end];
        NoTerminalMessage(seen, noted);
        NoTerminalMessage(seen + [noted], a.end);
      } else {
        NoTerminalMessage(seen, a.end);
      }
    }
  }

  /**
   * All messages of all attempts come through exactly when every attempt emits `ready` before its
   * first message.
   */
  lemma AllMessagesIffReadyFirst<M, E>(p: Policy<E>, attempts: seq<Attempt<M, E>>, retries: nat)
    requires AreAttempts(attempts)
    ensures Messages(Concatenation(p, attempts, retries)) == AllMessages(p, attempts, retries)
       <==> ReadyBeforeMessages(p, attempts, retries)
  {
    hide Messages, AllMessages, ReadyBeforeMessages, DeliveredMessages;
    ConcatenationMessages(p, attempts, retries);
    DeliveredIffReadyFirst(p, attempts, retries);
  }

  lemma {:induction false} DeliveredIffReadyFirst<M, E>(p: Policy<E>, attempts: seq<Attempt<M, E>>, retries: nat)
    requires AreAttempts(attempts)
    ensures var delivered, sent := DeliveredMessages(p, attempts, retries), AllMessages(p, attempts, retries);
            |delivered| <= |sent| && (delivered == sent <==> ReadyBeforeMessages(p, attempts, retries))
    decreases attempts
  {
    hide Messages, Visible, MayRetry, RetriesAfter;
    if attempts == [] {
    } else {
      var a := attempts[0];
      assert IsAttempt(a) && AreAttempts(attempts[1..]);
      var n, seen := RetriesAfter(a.body, retries), Visible(a.body);
      VisibleMessages(a.body);
      assert Messages(a.body) + [] == Messages(a.body) && Messages(seen) + [] == Messages(seen);
      DeliveredIffReadyFirst(p, attempts[1..], n + 1);
      SameLengths(Messages(seen), DeliveredMessages(p, attempts[1..], n + 1),
                  Messages(a.body), AllMessages(p, attempts[1..], n + 1));
    }
  }

  lemma NothingDelivered<M, E>()
    ensures Messages<M, E>([]) == []
  {
  }

  lemma SameLengths<M>(a: seq<M>, b: seq<M>, c: seq<M>, d: seq<M>)
    requires |a| <= |c| && |b| <= |d|
    ensures a + b == c + d <==> a == c && b == d
  {
    if a + b == c + d {
      assert |a| == |c| && |b| == |d|;
      assert (a + b)[..|a|] == a && (c + d)[..|c|] == c;
      assert (a + b)[|a|..] == b && (c + d)[|c|..] == d;
    }
  }
}
