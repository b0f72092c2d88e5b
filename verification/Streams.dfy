/** The events a stream emits, and the traces they form. */
module Streams {
  datatype Event<+M, +E> =
    | Ready
    | Message(message: M)
    | Complete
    | Canceled
    | Error(error: E)
    | RetryingError(error: E, retries: nat, abandoned: bool)

  function Messages<M, E>(trace: seq<Event<M, E>>): seq<M> {
    if trace == [] then [] else MessageOf(trace[0]) + Messages(trace[1..])
  }

  function MessageOf<M, E>(e: Event<M, E>): seq<M> {
    if e.Message? then [e.message] else []
  }

  predicate IsTerminal<M, E>(e: Event<M, E>) {
    e.Complete? || e.Canceled? || e.Error?
  }

  /** Nothing has ended. */
  predicate IsOpen<M, E>(events: seq<Event<M, E>>) {
    forall i :: 0 <= i < |events| ==> !IsTerminal(events[i])
  }

  /** One terminal event, in the last place. */
  predicate IsTrace<M, E>(events: seq<Event<M, E>>) {
    events != [] && IsTerminal(events[|events| - 1]) && IsOpen(events[..|events| - 1])
  }

  function Last<M, E>(events: seq<Event<M, E>>): Event<M, E>
    requires events != []
  {
    events[|events| - 1]
  }

  lemma OpenConcat<M, E>(a: seq<Event<M, E>>, b: seq<Event<M, E>>)
    ensures IsOpen(a + b) <==> IsOpen(a) && IsOpen(b)
  {
    assert forall i :: 0 <= i < |a| ==> (a + b)[i] == a[i];
    assert forall i :: 0 <= i < |b| ==> (a + b)[|a| + i] == b[i];
  }

  lemma OpenOne<M, E>(e: Event<M, E>)
    ensures IsOpen<M, E>([]) && (IsOpen([e]) <==> !IsTerminal(e))
  {
    assert [e][0] == e;
  }

  /** A terminal event behind others makes a trace exactly when these end nothing. */
  lemma TraceOfOneMore<M, E>(front: seq<Event<M, E>>, last: Event<M, E>)
    ensures IsTrace(front + [last]) <==> IsOpen(front) && IsTerminal(last)
    ensures Last(front + [last]) == last
  {
    assert (front + [last])[..|front|] == front;
  }

  /** Events that end nothing, in front of a trace. */
  lemma OpenThenTrace<M, E>(front: seq<Event<M, E>>, trace: seq<Event<M, E>>)
    requires IsTrace(trace) && IsOpen(front)
    ensures IsTrace(front + trace) && Last(front + trace) == Last(trace)
  {
    hide IsOpen;
    var before := trace[..|trace| - 1];
    assert (front + trace)[..|front + trace| - 1] == front + before;
    OpenConcat(front, before);
  }

  lemma NoMessages<M, E>(e: Event<M, E>)
    requires !e.Message?
    ensures Messages([e]) == []
  {
    assert [e][1..] == [];
  }

  lemma {:induction false} MessagesConcat<M, E>(a: seq<Event<M, E>>, b: seq<Event<M, E>>)
    ensures Messages(a + b) == Messages(a) + Messages(b)
  {
    hide MessageOf;
    if a == [] {
      assert a + b == b;
    } else {
      assert (a + b)[1..] == a[1..] + b;
      MessagesConcat(a[1..], b);
    }
  }
}
