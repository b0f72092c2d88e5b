/** When the moment of header decoding shows, and when an exception reaches the transport. */
module ClientTiming {
  import opened Wrappers
  import opened Wire
  import opened ChunkParsing
  import opened Streams
  import opened GrpcWebClient
  import opened ClientFrames
  import opened ClientRuns

  // The exact condition for timing independence

  ghost predicate NoException<M>(events: seq<ClientEvent<M>>) {
    Error(Exception) !in events
  }

  lemma {:induction false} DeliveredNoException<M>(decode: Decoder<M>, context: Option<Context>, fs: seq<WireFrame>)
    ensures NoException(Delivered(decode, context, fs))
  {
    hide TrailerReading;
    if fs == [] {
    } else {
      DeliveredNoException(decode, context, fs[1..]);
    }
  }

  /** When the headers come first, an exception escapes to the transport and is never emitted. */
  lemma EarlyHeaders<M>(decode: Decoder<M>, context: Context, pieces: seq<Bytes>)
    ensures NoException(Observe(decode, pieces, 0, Decoded(context), None))
  {
    hide Observe, Delivered, KeptDirectly, StateAfter;
    ObserveMeaning(decode, context, pieces, 0, None);
    assert pieces[..0] == [];
    DeliveredNoException(decode, Some(context), KeptInReplay(decode, [], []));
    DeliveredNoException(decode, Some(context), KeptAfter(decode, pieces, 0));
  }

  /** When they come last, an exception ends the replay with an `error` event. */
  lemma LateHeaders<M>(decode: Decoder<M>, context: Context, pieces: seq<Bytes>)
    requires !Clean(decode, Replayed([], pieces))
    ensures !NoException(Observe(decode, pieces, |pieces| + 1, Decoded(context), None))
  {
    hide Observe, Delivered, Clean, Replayed, KeptInReplay, KeptAfter, StateAfter;
    ObserveMeaning(decode, context, pieces, |pieces| + 1, None);
    var before := [Ready] + Delivered(decode, Some(context), KeptInReplay(decode, [], pieces));
    var events := EventsBeforeEnd(decode, context, pieces, |pieces| + 1);
    assert events[|before|] == Error(Exception);
  }

  ghost predicate SameAtAllTimes<M>(decode: Decoder<M>, context: Context, pieces: seq<Bytes>) {
    forall k :: 0 <= k <= |pieces| + 1 ==>
      Observe(decode, pieces, k, Decoded(context), None) == Observe(decode, pieces, 0, Decoded(context), None)
  }

  /**
   * Every frame up to the first trailer can be taken in, and what a replay reads after it makes no
   * difference: success trailers only, and nothing at all after a trailer that reports an error.
   */
  predicate Indifferent<M>(decode: Decoder<M>, pieces: seq<Bytes>) {
    var seen, late := Seen(Flatten(pieces)), LateFrames(pieces);
    && Clean(decode, seen)
    && AllSuccess(late)
    && (late != [] ==> StateAfter(seen, IsReady) != HasError)
  }

  lemma {:induction false} SuccessesAreSilent<M>(decode: Decoder<M>, context: Option<Context>, fs: seq<WireFrame>)
    requires AllSuccess(fs)
    ensures Clean(decode, fs) && Delivered(decode, context, fs) == []
    ensures StateAfter(fs, TrailersReceived) == TrailersReceived
  {
    hide TrailerReading;
    if fs == [] {
    } else {
      assert IsSuccess(fs[0]);
      assert forall i :: 0 <= i < |fs[1..]| ==> fs[1..][i] == fs[i + 1];
      SuccessesAreSilent(decode, context, fs[1..]);
    }
  }

  lemma {:induction false} SilentAreSuccesses<M>(decode: Decoder<M>, context: Option<Context>, fs: seq<WireFrame>)
    requires Clean(decode, fs) && Delivered(decode, context, fs) == []
    ensures AllSuccess(fs)
  {
    hide TrailerReading;
    if fs == [] {
    } else {
      assert FrameEvents(decode, context, fs[0]) == [] && Delivered(decode, context, fs[1..]) == [];
      assert IsSuccess(fs[0]);
      SilentAreSuccesses(decode, context, fs[1..]);
      assert forall i :: 1 <= i < |fs| ==> fs[i] == fs[1..][i - 1];
    }
  }

  lemma {:induction false} NoCompleteDelivered<M>(decode: Decoder<M>, context: Option<Context>, fs: seq<WireFrame>)
    ensures Complete !in Delivered(decode, context, fs)
  {
    hide TrailerReading;
    if fs == [] {
    } else {
      NoCompleteDelivered(decode, context, fs[1..]);
    }
  }

  /** What late frames add, against what would have been said without them. */
  lemma LateTail<M>(decode: Decoder<M>, context: Context, late: seq<WireFrame>, q: State)
    requires Clean(decode, late) && late != [] && (q == TrailersReceived || q == HasError)
    ensures Delivered(decode, Some(context), late) + Ending(StateAfter(late, q), None) == Ending(q, None)
       <==> AllSuccess(late) && q != HasError
  {
    hide Delivered, StateAfter, Clean, AllSuccess;
    var more, q' := Delivered(decode, Some(context), late), StateAfter(late, q);
    if AllSuccess(late) {
      SuccessesAreSilent(decode, Some(context), late);
      LastSuccess(late, q);
      assert more + Ending(q', None) == [Complete];
    } else if more == [] {
      SilentAreSuccesses(decode, Some(context), late);
    } else {
      NoCompleteDelivered(decode, Some(context), late);
      assert (more + Ending(q', None))[0] == more[0] != Complete;
    }
  }

  /** Late frames change nothing exactly when they are silent successes, and absent after an error. */
  lemma LateFramesTell<M>(decode: Decoder<M>, context: Context, seen: seq<WireFrame>, late: seq<WireFrame>)
    requires Clean(decode, late) && (late != [] ==> HasTrailer(seen))
    ensures Told(decode, context, seen + late, None) == Told(decode, context, seen, None)
       <==> AllSuccess(late) && (late != [] ==> StateAfter(seen, IsReady) != HasError)
  {
    hide Delivered, StateAfter, Clean, HasTrailer, AllSuccess, Ending;
    if late == [] {
      assert seen + late == seen;
      NothingIsSuccess();
    } else {
      var front, more := [Ready] + Delivered(decode, Some(context), seen), Delivered(decode, Some(context), late);
      var q, q' := StateAfter(seen, IsReady), StateAfter(seen + late, IsReady);
      DeliveredConcat(decode, Some(context), seen, late);
      StateAfterConcat(seen, late, IsReady);
      assert Told(decode, context, seen + late, None) == front + (more + Ending(q', None)) by {
        assert [Ready] + (Delivered(decode, Some(context), seen) + more) == front + more;
      }
      TrailerEnds(seen, IsReady);
      LateTail(decode, context, late, q);
      SameFront(front, more + Ending(q', None), Ending(q, None));
    }
  }

  lemma NothingIsSuccess()
    ensures AllSuccess([])
  {
  }

  lemma {:induction false} LastSuccess(fs: seq<WireFrame>, before: State)
    requires AllSuccess(fs) && fs != []
    ensures StateAfter(fs, before) == TrailersReceived
    decreases fs
  {
    hide TrailerReading;
    assert IsSuccess(fs[0]);
    if |fs| > 1 {
      assert forall i :: 0 <= i < |fs[1..]| ==> fs[1..][i] == fs[i + 1];
      LastSuccess(fs[1..], FrameState(fs[0], before));
    } else {
      assert fs[1..] == [];
    }
  }

  lemma SameFront<T>(front: seq<T>, a: seq<T>, b: seq<T>)
    ensures front + a == front + b <==> a == b
  {
    assert (front + a)[|front|..] == a && (front + b)[|front|..] == b;
  }

  lemma {:induction false} AllSuccessPrefix(fs: seq<WireFrame>, gs: seq<WireFrame>)
    requires fs <= gs && AllSuccess(gs)
    ensures AllSuccess(fs)
  {
    assert forall i :: 0 <= i < |fs| ==> fs[i] == gs[i];
  }

  /**
   * Timing independence, for all pieces: the moment of header decoding is invisible if and only if
   * the client can take in every frame up to the first trailer, and the frames that a replay reads
   * after it are trailers without an error, none when the first trailer reports one.
   */
  lemma TimingIndependenceIff<M>(decode: Decoder<M>, context: Context, pieces: seq<Bytes>)
    ensures SameAtAllTimes(decode, context, pieces) <==> Indifferent(decode, pieces)
  {
    hide Observe, Told, Taken, Seen, Flatten, LateFrames, Clean, NoException, AllSuccess, Replayed, HasTrailer;
    hide StateAfter;
    var seen, late, all := Seen(Flatten(pieces)), LateFrames(pieces), Replayed([], pieces);
    LateNeedsTrailer(pieces);
    CleanConcat(decode, seen, late);
    if Indifferent(decode, pieces) {
      MomentMeaning(decode, context, pieces, 0);
      forall k | 0 <= k <= |pieces| + 1
        ensures Observe(decode, pieces, k, Decoded(context), None) == Observe(decode, pieces, 0, Decoded(context), None)
      {
        var some := TakenMeaning(pieces, k);
        AllSuccessPrefix(some, late);
        SuccessesAreSilent(decode, Some(context), some);
        CleanConcat(decode, seen, some);
        LateFramesTell(decode, context, seen, some);
        MomentMeaning(decode, context, pieces, k);
      }
    } else if Clean(decode, all) {
      MomentMeaning(decode, context, pieces, 0);
      assert Taken(pieces, |pieces| + 1) == all by { LastTaken(pieces); }
      MomentMeaning(decode, context, pieces, |pieces| + 1);
      LateFramesTell(decode, context, seen, late);
      assert Observe(decode, pieces, |pieces| + 1, Decoded(context), None)
          != Observe(decode, pieces, 0, Decoded(context), None);
    } else {
      EarlyHeaders(decode, context, pieces);
      LateHeaders(decode, context, pieces);
      assert Observe(decode, pieces, |pieces| + 1, Decoded(context), None)
          != Observe(decode, pieces, 0, Decoded(context), None);
      assert !Indifferent(decode, pieces) by {
        if AllSuccess(late) {
          SuccessesAreSilent(decode, Some(context), late);
        }
      }
    }
  }

  lemma LastTaken(pieces: seq<Bytes>)
    ensures Taken(pieces, |pieces| + 1) == Replayed([], pieces)
  {
  }

  /** When no piece follows the first trailer, only the frames up to it matter. */
  lemma TimingIndependenceIffClean<M>(decode: Decoder<M>, context: Context, pieces: seq<Bytes>)
    requires NothingAfterTrailer([], pieces)
    ensures SameAtAllTimes(decode, context, pieces) <==> Clean(decode, Seen(Flatten(pieces)))
  {
    hide SameAtAllTimes, Seen, Flatten, LateFrames, NothingAfterTrailer, Clean, StateAfter, AllSuccess;
    TakenIsSeen(pieces, 0);
    NothingIsSuccess();
    TimingIndependenceIff(decode, context, pieces);
  }

  // Exceptions that escape to the transport

  /** Some call of the run ends with an exception. */
  predicate Escapes<M>(decode: Decoder<M>, c: Client<M>, inputs: seq<Input>)
    decreases inputs
  {
    inputs != [] && (Throws(decode, c, inputs[0]) || Escapes(decode, Step(decode, c, inputs[0]), inputs[1..]))
  }

  lemma {:induction false} EscapesConcat<M>(decode: Decoder<M>, c: Client<M>, a: seq<Input>, b: seq<Input>)
    ensures Escapes(decode, c, a + b) <==> Escapes(decode, c, a) || Escapes(decode, Run(decode, c, a), b)
    decreases a
  {
    hide Step, Throws;
    if a == [] {
      assert a + b == b;
    } else {
      assert (a + b)[1..] == a[1..] + b;
      EscapesConcat(decode, Step(decode, c, a[0]), a[1..], b);
    }
  }

  lemma EscapesOne<M>(decode: Decoder<M>, c: Client<M>, input: Input)
    ensures Escapes(decode, c, [input]) <==> Throws(decode, c, input)
  {
    hide Step, Throws;
    assert [input][1..] == [];
  }

  lemma {:induction false} WaitingEscapesNothing<M>(decode: Decoder<M>, c: Client<M>, pieces: seq<Bytes>)
    requires c.state == Started
    ensures !Escapes(decode, c, PieceInputs(pieces))
    decreases pieces
  {
    hide OnChunk;
    if pieces == [] {
    } else {
      assert PieceInputs(pieces)[1..] == PieceInputs(pieces[1..]);
      WaitingEscapesNothing(decode, c.(pending := c.pending + [pieces[0]]), pieces[1..]);
    }
  }

  lemma {:induction false} LateEscapes<M>(decode: Decoder<M>, c: Client<M>, pieces: seq<Bytes>)
    requires c.state == TrailersReceived || c.state == HasError
    ensures Escapes(decode, c, PieceInputs(pieces)) <==> c.state == TrailersReceived && pieces != []
    decreases pieces
  {
    hide OnChunk;
    if pieces == [] {
    } else {
      assert PieceInputs(pieces)[1..] == PieceInputs(pieces[1..]);
      LateEscapes(decode, c, pieces[1..]);
    }
  }

  /** A frame up to the next trailer cannot be taken in, or a piece follows a trailer without an error. */
  predicate Awkward<M>(decode: Decoder<M>, unread: Bytes, pieces: seq<Bytes>) {
    var seen := Batch(Replayed(unread, pieces));
    !Clean(decode, seen) || (StateAfter(seen, IsReady) == TrailersReceived && PieceFollows(unread, pieces))
  }

  lemma {:induction false} DirectEscapes<M>(decode: Decoder<M>, c: Client<M>, pieces: seq<Bytes>)
    requires c.state == IsReady
    ensures Escapes(decode, c, PieceInputs(pieces)) <==> Awkward(decode, c.unread, pieces)
    decreases pieces
  {
    hide ParseOnce, OnChunk, Frames, HasTrailer, Delivered, Kept;
    if pieces == [] {
    } else {
      hide Clean, Batch, StateAfter;
      var b := c.unread + pieces[0];
      var batch, rest := Seen(b), Replayed(ParseOnce(b).unread, pieces[1..]);
      var h := OnChunk(decode, c, pieces[0]);
      assert PieceInputs(pieces)[1..] == PieceInputs(pieces[1..]);
      assert Step(decode, c, Piece(pieces[0])) == h.client && (Throws(decode, c, Piece(pieces[0])) <==> h.threw);
      OnChunkMeaning(decode, c, pieces[0]);
      BatchTwice(Frames(b));
      BatchConcat(batch, rest);
      if HasTrailer(batch) {
        TrailerEnds(batch, IsReady);
        if !h.threw {
          LateEscapes(decode, h.client, pieces[1..]);
        }
      } else {
        BatchWithoutTrailer(batch);
        NoTrailerNoChange(batch, IsReady);
        CleanConcat(decode, batch, Batch(rest));
        StateAfterConcat(batch, Batch(rest), IsReady);
        if !h.threw {
          DirectEscapes(decode, h.client, pieces[1..]);
          NothingFollows(decode, ParseOnce(b).unread, pieces[1..]);
        }
      }
    }
  }

  lemma NothingFollows<M>(decode: Decoder<M>, unread: Bytes, pieces: seq<Bytes>)
    ensures pieces == [] ==> !Awkward(decode, unread, pieces)
  {
  }

  /** Whether the pieces that arrive after the headers settled make a call throw. */
  predicate AwkwardAfter<M>(decode: Decoder<M>, pieces: seq<Bytes>, k: nat)
    requires k <= |pieces|
  {
    var kept, left := KeptInReplay(decode, [], pieces[..k]), LeftInReplay(decode, [], pieces[..k]);
    if HasTrailer(kept) then StateAfter(kept, IsReady) == TrailersReceived && k < |pieces|
    else Awkward(decode, left, pieces[k..])
  }

  /**
   * An exception escapes to the transport, for any pieces and at any moment of header decoding, if
   * and only if the headers settle before the end and the pieces that follow are awkward: a frame
   * cannot be taken in, or a piece follows a trailer without an error.
   */
  lemma EscapesIff<M>(decode: Decoder<M>, context: Context, pieces: seq<Bytes>, k: nat, end: Option<TransportError>)
    requires k <= |pieces| + 1
    ensures Escapes(decode, StartedClient<M>(), Timeline(pieces, k, Decoded(context), end))
       <==> k <= |pieces| && AwkwardAfter(decode, pieces, k)
  {
    hide Step, Throws, Escapes, PieceInputs, Awkward, KeptInReplay, LeftInReplay, HasTrailer, StateAfter, ReplayThrows;
    var c0, settle := StartedClient<M>(), HeadersSettled(Decoded(context));
    var front := Waiting(pieces, k);
    var c1 := c0.(pending := front);
    PiecesWait(decode, c0, front);
    WaitingEscapesNothing(decode, c0, front);
    assert c0.pending + front == front;
    if k <= |pieces| {
      var back, c2 := pieces[k..], AfterReplay<M>(decode, context, pieces, k);
      EscapesConcat(decode, c0, PieceInputs(front), [settle] + (PieceInputs(back) + [End(end)]));
      EscapesConcat(decode, c1, [settle], PieceInputs(back) + [End(end)]);
      RunOne(decode, c1, settle);
      EscapesOne(decode, c1, settle);
      EndsQuietly(decode, c1, settle);
      SettleMeaning(decode, context, pieces, k);
      EscapesConcat(decode, c2, PieceInputs(back), [End(end)]);
      var c3 := Run(decode, c2, PieceInputs(back));
      EscapesOne(decode, c3, End(end));
      EndsQuietly(decode, c3, End(end));
      var kept := KeptInReplay(decode, [], front);
      if HasTrailer(kept) {
        TrailerEnds(kept, IsReady);
        LateEscapes(decode, c2, back);
      } else {
        NoTrailerNoChange(kept, IsReady);
        DirectEscapes(decode, c2, back);
      }
    } else {
      EscapesConcat(decode, c0, PieceInputs(front), [End(end)] + [settle]);
      EscapesConcat(decode, c1, [End(end)], [settle]);
      EscapesOne(decode, c1, End(end));
      EndsQuietly(decode, c1, End(end));
      var c2 := Run(decode, c1, [End(end)]);
      EscapesOne(decode, c2, settle);
      EndsQuietly(decode, c2, settle);
    }
  }

  /**
   * When no piece follows the first trailer and the waiting pieces can be taken in, an exception
   * escapes exactly when some frame up to the first trailer cannot be taken in.
   */
  lemma EscapesIffUnclean<M>(
      decode: Decoder<M>, context: Context, pieces: seq<Bytes>, k: nat, end: Option<TransportError>)
    requires k <= |pieces| + 1 && NothingAfterTrailer([], pieces)
    requires k <= |pieces| ==> !ReplayThrows(decode, pieces, k)
    ensures Escapes(decode, StartedClient<M>(), Timeline(pieces, k, Decoded(context), end))
       <==> k <= |pieces| && !Clean(decode, Seen(Flatten(pieces)))
  {
    hide Escapes, Clean, Seen, Flatten, Batch, NothingAfterTrailer, Timeline, StateAfter, PieceFollows;
    hide HasTrailer, Replayed;
    hide KeptInReplay, LeftInReplay, LeftOver;
    EscapesIff(decode, context, pieces, k, end);
    if k <= |pieces| {
      var front, back := pieces[..k], pieces[k..];
      var fs, left := Replayed([], front), LeftOver([], front);
      assert front + back == pieces && [] + Flatten(pieces) == Flatten(pieces);
      NoFrames();
      KeptInReplayMeaning(decode, [], front);
      ReplayedConcat([], front, back);
      NothingReplayedLate([], pieces);
      PieceFollowsMeaning([], pieces);
      if back == [] {
        NothingFollows(decode, left, back);
        NothingReplayed(left);
        assert fs + [] == fs;
      } else {
        PieceFollowsConcat([], front, back);
        ReplayedSeen([], pieces);
        BatchConcat(fs, Replayed(left, back));
        CleanConcat(decode, fs, Batch(Replayed(left, back)));
      }
    }
  }

  lemma NothingReplayed(unread: Bytes)
    ensures Replayed(unread, []) == []
  {
  }

  lemma EndsQuietly<M>(decode: Decoder<M>, c: Client<M>, input: Input)
    requires input.HeadersSettled? || input.End?
    ensures !Throws(decode, c, input)
  {
  }

  /**
   * Which calls end with an exception: a second start, a frame that cannot be taken in, and a piece
   * for a stream that is neither waiting for its headers nor ready nor over by cancel or failure.
   */
  lemma ThrowsMeaning<M>(decode: Decoder<M>, c: Client<M>, input: Input)
    ensures Throws(decode, c, input) <==>
            || (input.Start? && c.state != Initial)
            || (input.Piece? && c.state == IsReady && !Clean(decode, Seen(c.unread + input.bytes)))
            || (input.Piece? && !(c.state in {Started, IsReady, IsCanceled, HasError}))
  {
    hide OnChunk, Seen, Clean, Kept, ParseOnce, Took;
    if input.Piece? {
      OnChunkMeaning(decode, c, input.bytes);
    }
  }

  // What `complete` means

  lemma CompleteInEnding<M>(front: seq<ClientEvent<M>>, state: State)
    requires Complete !in front
    ensures Complete in front + Ending(state, None) <==> state == TrailersReceived
  {
  }

  /**
   * When the transport ends without an error, `complete` is emitted exactly when the last trailer
   * taken in reports none, unless a replay after the end throws. It does not mean that nothing is
   * lost: that is so exactly when every frame up to the first trailer can be taken in.
   */
  lemma CompleteMeaning<M>(decode: Decoder<M>, context: Context, pieces: seq<Bytes>, k: nat)
    requires k <= |pieces| + 1
    ensures Complete in Observe(decode, pieces, k, Decoded(context), None) <==>
            && StateAfter(Reached(decode, pieces, k), IsReady) == TrailersReceived
            && (k <= |pieces| || !ReplayThrows(decode, pieces, k))
    ensures Seen(Flatten(pieces)) <= Reached(decode, pieces, k) <==> Clean(decode, Seen(Flatten(pieces)))
  {
    hide Observe, Delivered, Clean, Seen, Flatten, Reached, Replayed, KeptInReplay, KeptAfter, StateAfter;
    hide Ending, ReplayThrows;
    ObserveMeaning(decode, context, pieces, k, None);
    NothingLostIff(decode, pieces, k);
    NoCompleteDelivered(decode, Some(context), KeptInReplay(decode, [], Waiting(pieces, k)));
    NoCompleteDelivered(decode, Some(context), KeptAfter(decode, pieces, k));
    var front := EventsBeforeEnd(decode, context, pieces, k);
    assert Complete !in front;
    CompleteInEnding(front, StateAfter(Reached(decode, pieces, k), IsReady));
  }

  // Inputs at which the moment shows

  const SUCCESS: WireFrame := Frame(TRAILER_FLAG, [])

  lemma SeenLone(f: WireFrame)
    ensures var b := FrameBytes(f);
            Frames(b) == [f] && Seen(b) == [f] && ParseOnce(b) == Parsed(ChunksOf([f]), [])
  {
    hide FrameBytes, FirstFrame, FirstSize, ReadU32, ParseOnce, Frames, Encode;
    var b := FrameBytes(f);
    EncodeStep(f, []);
    assert b == Encode([f]) + [];
    NoFrames();
    DecodeEncode([f], []);
    assert Batch([f]) == [f];
    ParseMeaning(b);
    assert |b| == |Encode([f])| + |ParseOnce(b).unread|;
  }

  /** A trailer in one piece and another frame in the next, at the first and at the last moment. */
  lemma TwoPieces<M>(decode: Decoder<M>, context: Context, f: WireFrame, g: WireFrame)
    requires IsTrailer(f) && CleanFrame(decode, f) && CleanFrame(decode, g)
    ensures var pieces := [FrameBytes(f), FrameBytes(g)];
            && Observe(decode, pieces, 0, Decoded(context), None)
               == [Ready] + FrameEvents(decode, Some(context), f) + Ending(FrameState(f, IsReady), None)
            && Observe(decode, pieces, 3, Decoded(context), None)
               == [Ready] + (FrameEvents(decode, Some(context), f) + FrameEvents(decode, Some(context), g))
                  + Ending(FrameState(g, FrameState(f, IsReady)), None)
  {
    hide FrameBytes, ParseOnce, Seen, Observe, CleanFrame, FrameEvents, FrameState;
    var x, y := FrameBytes(f), FrameBytes(g);
    var pieces: seq<Bytes>, one: seq<Bytes> := [x, y], [y];
    var fs: seq<WireFrame>, gs: seq<WireFrame>, all: seq<WireFrame> := [f], [g], [f, g];
    SeenLone(f);
    SeenLone(g);
    assert [] + x == x && [] + y == y;
    assert pieces[1..] == one && one[1..] == [] && all[1..] == gs && gs[1..] == [];
    assert fs + gs == all && fs[1..] == [];
    assert Replayed([], one) == gs + Replayed([], []);
    assert Replayed([], pieces) == fs + Replayed([], one) == all;
    LateNeedsTrailer(pieces);
    assert [] + Flatten(pieces) == Flatten(pieces);
    NoFrames();
    ReplayedSeen([], pieces);
    assert Batch(all) == fs;
    LastTaken(pieces);
    MomentMeaning(decode, context, pieces, 0);
    MomentMeaning(decode, context, pieces, 3);
    var first, second := FrameEvents(decode, Some(context), f), FrameEvents(decode, Some(context), g);
    assert Delivered(decode, Some(context), gs) == second + [] == second;
    assert Delivered(decode, Some(context), all) == first + Delivered(decode, Some(context), gs);
    assert Delivered(decode, Some(context), fs) == first + [] == first;
    assert StateAfter(fs, IsReady) == FrameState(f, IsReady);
    assert StateAfter(all, IsReady) == StateAfter(gs, FrameState(f, IsReady)) == FrameState(g, FrameState(f, IsReady));
  }

  /** A late message is dropped when the headers come first and delivered when they come last. */
  lemma PieceAfterTrailer<M>(decode: Decoder<M>, context: Context, g: WireFrame, m: M)
    requires !IsTrailer(g) && decode(g.payload) == Some(m)
    ensures var pieces := [FrameBytes(SUCCESS), FrameBytes(g)];
            && Observe(decode, pieces, 0, Decoded(context), None) == [Ready, Complete]
            && Observe(decode, pieces, 3, Decoded(context), None)
               == [Ready, Message(Response(m, Some(context))), Complete]
  {
    hide FrameBytes, TrailerReading, Observe;
    EmptyTrailer();
    TwoPieces(decode, context, SUCCESS, g);
  }

  /** After a trailer that reports an error, a late success trailer adds `complete`. */
  lemma CompleteAfterError<M>(decode: Decoder<M>, context: Context, failed: WireFrame)
    requires IsTrailer(failed) && TrailerReading(failed.payload).Failed?
    ensures var pieces, e := [FrameBytes(failed), FrameBytes(SUCCESS)], TrailerReading(failed.payload).error;
            var error := Error(RpcError(e.errorType, e.message, Some(context)));
            && Observe(decode, pieces, 0, Decoded(context), None) == [Ready, error]
            && Observe(decode, pieces, 3, Decoded(context), None) == [Ready, error, Complete]
  {
    hide FrameBytes, TrailerReading, Observe;
    EmptyTrailer();
    TwoPieces(decode, context, failed, SUCCESS);
  }

  /** The frames that take effect when a message cannot be decoded and a success follows. */
  lemma LostFrame<M>(decode: Decoder<M>, g: WireFrame)
    requires !IsTrailer(g) && decode(g.payload) == None
    ensures var x, y := FrameBytes(g), FrameBytes(SUCCESS);
            && KeptInReplay(decode, [], []) == [] && LeftInReplay(decode, [], []) == []
            && Clean(decode, Replayed([], []))
            && KeptDirectly(decode, [], [x, y]) == [SUCCESS] && KeptDirectly(decode, [], [y]) == [SUCCESS]
            && KeptInReplay(decode, [], [x]) == [] && LeftInReplay(decode, [], [x]) == []
            && KeptInReplay(decode, [], [x, y]) == []
            && !Clean(decode, Replayed([], [x])) && !Clean(decode, Replayed([], [x, y]))
            && !HasTrailer([])
  {
    hide FrameBytes, ParseOnce, Seen, TrailerReading;
    var x, y := FrameBytes(g), FrameBytes(SUCCESS);
    var both: seq<Bytes>, one: seq<Bytes>, two: seq<Bytes> := [x, y], [x], [y];
    var lost: seq<WireFrame>, ended: seq<WireFrame> := [g], [SUCCESS];
    EmptyTrailer();
    SeenLone(g);
    SeenLone(SUCCESS);
    SingleFrame(decode, None, g, IsReady);
    SingleFrame(decode, None, SUCCESS, IsReady);
    KeptMeaning(decode, lost);
    KeptMeaning(decode, ended);
    assert Kept(decode, lost) == [];
    assert [] + x == x && [] + y == y;
    assert both[1..] == two && one[1..] == [] && two[1..] == [];
    assert HasTrailer(ended) by { assert IsTrailer(ended[0]); }
    hide Clean, Kept, HasTrailer;
    NoneIsTrailer();
    NothingIsClean(decode);
    assert KeptDirectly(decode, [], two) == ended + [] == ended;
    assert KeptDirectly(decode, [], both) == [] + KeptDirectly(decode, [], two);
    CleanConcat(decode, lost, Replayed([], []));
    CleanConcat(decode, lost, Replayed([], two));
  }

  lemma NoneIsTrailer()
    ensures !HasTrailer([])
  {
  }

  /**
   * A message that cannot be decoded, then a success: lost without a trace when the headers come
   * first, an error before `complete` when they come in between, and an error at the end when they
   * come last.
   */
  lemma UndecodableMessage<M>(decode: Decoder<M>, context: Context, g: WireFrame)
    requires !IsTrailer(g) && decode(g.payload) == None
    ensures var pieces := [FrameBytes(g), FrameBytes(SUCCESS)];
            && Observe(decode, pieces, 0, Decoded(context), None) == [Ready, Complete]
            && Observe(decode, pieces, 1, Decoded(context), None) == [Ready, Error(Exception), Complete]
            && Observe(decode, pieces, 3, Decoded(context), None) == [Ready, Error(Exception)]
  {
    hide FrameBytes, Observe, TrailerReading, Delivered, StateAfter, KeptInReplay, LeftInReplay, KeptDirectly;
    hide Clean, Replayed, HasTrailer;
    var x, y := FrameBytes(g), FrameBytes(SUCCESS);
    var pieces := [x, y];
    LostFrame(decode, g);
    EmptyTrailer();
    SingleFrame(decode, Some(context), SUCCESS, IsReady);
    NothingDelivered(decode, Some(context), IsReady);
    assert pieces[..0] == [] && pieces[0..] == pieces && pieces[..1] == [x] && pieces[1..] == [y];
    assert [] + [SUCCESS] == [SUCCESS] && [SUCCESS] + [] == [SUCCESS];
    ObserveMeaning(decode, context, pieces, 0, None);
    ObserveMeaning(decode, context, pieces, 1, None);
    ObserveMeaning(decode, context, pieces, 3, None);
  }
}
