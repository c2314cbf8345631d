/** The client functions on the bytes of a server's replies: the replies determine the result. */
module ServedAnswers {
  import opened Bytes
  import opened Wire
  import opened Protocol
  import opened Catalog
  import opened ServerMachine
  import opened ClientMachine
  import opened Fidelity
  import opened Carriage
  import opened Client

  /** A stream that yields events yields the first of them. */
  lemma {:induction false} YieldsPrefix(s: seq<byte>, events: seq<Event>, n: nat, rest: seq<byte>)
    returns (left: seq<byte>)
    requires Yields(s, events, rest) && n <= |events|
    ensures Yields(s, events[..n], left)
    decreases |events|
  {
    if n == |events| {
      assert events[..n] == events;
      return rest;
    }
    var m := |events| - 1;
    var before :| Yields(s, events[..m], before) && ReadsTo(before, events[m], rest);
    left := YieldsPrefix(s, events[..m], n, before);
    TakeTake(events, m, n);
  }

  lemma WithinPrefix(events: seq<Event>, n: nat)
    requires AllTravel(events) && n <= |events|
    ensures AllTravel(events[..n]) && AllTravel(events[n..])
  {
  }

  /** The first `n` events of a stream of frames, and what they leave. */
  lemma FramesYieldPrefix(events: seq<Event>, n: nat, rest: seq<byte>)
    requires AllTravel(events) && n <= |events|
    ensures Yields(Frames(events) + rest, events[..n], Frames(events[n..]) + rest)
  {
    WithinPrefix(events, n);
    TakeDrop(events, n);
    FramesAppend(events[..n], events[n..]);
    Associate(Frames(events[..n]), Frames(events[n..]), rest);
    FramesYield(events[..n], Frames(events[n..]) + rest);
  }

  /** Replies that complete an operation keep completing it, whatever follows. */
  lemma {:induction false} CollectedThenMore(r: Receiver, events: seq<Event>, more: seq<Event>)
    requires Collected(r, events).Some?
    ensures var c := Collected(r, events).value; Collected(r, events + more) == Some((c.0, c.1 + more))
    decreases |events|
  {
    assert (events + more)[0] == events[0] && (events + more)[1..] == events[1..] + more;
    var p := Receive(r, events[0]);
    if p.More? {
      CollectedThenMore(p.receiver, events[1..], more);
    }
  }

  /** Replies that do not complete an operation contain none that do. */
  lemma AdvancedIsOpen(r: Receiver, events: seq<Event>)
    requires Advance(r, events).Some?
    ensures Collected(r, events).None?
  {
    AdvanceThenCollect(r, events, []);
    assert events + [] == events;
  }

  /** The replies that were heard are among the first ones that were written. */
  lemma HeardAreWritten(replies: seq<Event>, rest: seq<byte>, heard: seq<Event>, left: seq<byte>)
    requires AllTravel(replies) && Yields(Frames(replies) + rest, heard, left)
    ensures |heard| <= |replies| ==> heard == replies[..|heard|] && left == Frames(replies[|heard|..]) + rest
    ensures |heard| >= |replies| ==> heard[..|replies|] == replies
  {
    if |heard| <= |replies| {
      FramesYieldPrefix(replies, |heard|, rest);
      YieldsOnce(Frames(replies) + rest, heard, replies[..|heard|], left, Frames(replies[|heard|..]) + rest);
    }
    if |heard| >= |replies| {
      var p := YieldsPrefix(Frames(replies) + rest, heard, |replies|, left);
      FramesYield(replies, rest);
      YieldsOnce(Frames(replies) + rest, heard[..|replies|], replies, p, rest);
    }
  }

  /** A client that does not lose its connection returns what the replies mean, and stops reading right
      behind them. */
  lemma RepliesDetermineReturn(r: Receiver, replies: seq<Event>, rest: seq<byte>, result: Result,
      heard: seq<Event>, left: seq<byte>, ret: Return)
    requires AllTravel(replies) && Collected(r, replies) == Some((result, []))
    requires Concludes(r, Frames(replies) + rest, heard, left, ret) && ret != Failure(IoError)
    ensures ret == Returned(result) && heard == replies && left == rest
  {
    match ret
    case Returned(got) =>
      HeardAreWritten(replies, rest, heard, left);
      if |heard| <= |replies| {
        PrefixCompletes(r, heard, replies, got, result);
      } else {
        PrefixCompletes(r, replies, heard, result, got);
      }
      assert replies[|replies|..] == [] && [] + rest == rest && replies[..|replies|] == replies;
    case Failure(error) =>
      FailureCompletes(r, replies, rest, heard, error, left);
      AdvancedIsOpen(r, heard);
      assert false;
  }

  lemma PrefixCompletes(r: Receiver, events: seq<Event>, all: seq<Event>, a: Result, b: Result)
    requires |events| <= |all| && events == all[..|events|]
    requires Collected(r, events) == Some((a, [])) && Collected(r, all) == Some((b, []))
    ensures |events| == |all| && a == b
  {
    TakeDrop(all, |events|);
    CompletesOnce(r, events, all[|events|..], a, b);
  }

  /** Nothing is left over behind the replies that complete an operation only when nothing followed them. */
  lemma CompletesOnce(r: Receiver, events: seq<Event>, more: seq<Event>, a: Result, b: Result)
    requires Collected(r, events) == Some((a, [])) && Collected(r, events + more) == Some((b, []))
    ensures more == [] && a == b
  {
    CollectedThenMore(r, events, more);
    assert [] + more == more;
  }

  /** A read can only fail behind all of the replies, and these have completed the operation by then. */
  lemma FailureCompletes(r: Receiver, replies: seq<Event>, rest: seq<byte>, heard: seq<Event>, error: Error,
      left: seq<byte>)
    requires AllTravel(replies) && Collected(r, replies).Some?
    requires FailsBehind(Frames(replies) + rest, heard, error, left)
    ensures Collected(r, heard).Some?
  {
    var behind :| Yields(Frames(replies) + rest, heard, behind) && FailsTo(behind, error, left);
    HeardAreWritten(replies, rest, heard, behind);
    if |heard| < |replies| {
      WithinPrefix(replies, |heard|);
      var more := replies[|heard|..];
      Associate(Frame(more[0]), Frames(more[1..]), rest);
      ReadUndoesFrame(more[0], Frames(more[1..]) + rest);
      assert false;
    }
    TakeDrop(heard, |replies|);
    CollectedThenMore(r, replies, heard[|replies|..]);
  }

  /** One whole operation on the bytes: the frames of its requests, served, give replies whose frames, as far
      as they fit the printer, make the client return the result of the direct call. */
  lemma OperationOnBytes<S>(engine: Engine<S>, offer: Offer, op: Op, s: S, rest: seq<byte>,
      heard: seq<Event>, left: seq<byte>, ret: Return)
    requires Acceptable(op) && Succeeds(engine, op, s) && Audible(engine, offer, op, s)
    requires var replies := Kept(Serve(engine, offer, Top, s, Requests(op)).replies);
             Concludes(Begin(op), Frames(replies) + rest, heard, left, ret)
    requires ret != Failure(IoError)
    ensures ret == Returned(Direct(engine, offer, op, s).1) && left == rest
  {
    ServedTravel(engine, offer, Top, s, Requests(op));
    HeardExactlyWhenAudible(engine, offer, op, s);
    RepliesDetermineReturn(Begin(op), Kept(Serve(engine, offer, Top, s, Requests(op)).replies), rest,
                           Direct(engine, offer, op, s).1, heard, left, ret);
  }
}
