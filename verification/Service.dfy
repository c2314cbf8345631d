/** The server's loop on the bytes of a client's events, under every schedule of short reads, short writes
    and interruptions: it does exactly what serving the list of events does. */
module Service {
  import opened Bytes
  import opened Wire
  import opened Stream
  import opened Protocol
  import opened Catalog
  import opened ServerMachine
  import opened ClientMachine
  import opened Fidelity
  import opened Server
  import Client
  import Registry

  /** Reads that find the end of the stream. */
  function Ends(m: nat): seq<Input> {
    seq(m, _ => Lost(EofError))
  }

  lemma EmptyStream()
    ensures Wire.ReadEvent([]) == Failed(EofError, [])
  {
  }

  lemma FirstFrame(events: seq<Event>)
    requires AllTravel(events) && events != []
    ensures Wire.ReadEvent(Frames(events)) == Read(events[0], Frames(events[1..]))
  {
    ReadUndoesFrame(events[0], Frames(events[1..]));
  }

  lemma AllTravelFrom(events: seq<Event>, k: nat)
    requires AllTravel(events) && k <= |events|
    ensures AllTravel(events[k..])
  {
  }

  lemma GotsMore(events: seq<Event>, k: nat)
    requires k < |events|
    ensures Gots(events[..k]) + [Got(events[k])] == Gots(events[..k + 1])
    ensures events[k..][0] == events[k] && events[k..][1..] == events[k + 1..]
  {
  }

  /** Where reading has come to in a stream of written events. */
  ghost predicate Reached(events: seq<Event>, k: nat, m: nat, inputs: seq<Input>, rest: seq<byte>) {
    k <= |events| && (m > 0 ==> k == |events|) && inputs == Gots(events[..k]) + Ends(m) && rest == Frames(events[k..])
  }

  /** Reading a stream of written events without trouble gives these events, one by one, and then the end
      of the stream. */
  lemma {:induction false} WrittenEventsAreRead(events: seq<Event>, inputs: seq<Input>, rest: seq<byte>)
    returns (k: nat, m: nat)
    requires AllTravel(events) && Delivers(Frames(events), inputs, rest)
    requires Stopped !in inputs && Input.Lost(IoError) !in inputs
    ensures Reached(events, k, m, inputs, rest)
    decreases |inputs|
  {
    if inputs == [] {
      assert events[0..] == events && Gots(events[..0]) + Ends(0) == [];
      return 0, 0;
    }
    var init, last := inputs[..|inputs| - 1], inputs[|inputs| - 1];
    Snoc(inputs);
    var left :| Delivers(Frames(events), init, left) && Takes(left, last, rest);
    k, m := WrittenEventsAreRead(events, init, left);
    if k < |events| {
      NextIsRead(events, k, m, init, left, last, rest);
      k := k + 1;
    } else {
      EndIsRead(events, m, init, left, last, rest);
      m := m + 1;
    }
  }

  lemma NextIsRead(events: seq<Event>, k: nat, m: nat, init: seq<Input>, left: seq<byte>, last: Input, rest: seq<byte>)
    requires AllTravel(events) && k < |events| && Reached(events, k, m, init, left)
    requires Takes(left, last, rest) && last != Stopped && last != Lost(IoError)
    ensures Reached(events, k + 1, m, init + [last], rest)
  {
    AllTravelFrom(events, k);
    FirstFrame(events[k..]);
    GotsMore(events, k);
    assert Ends(0) == [];
    assert init == Gots(events[..k]) && last == Got(events[k]);
  }

  lemma EndIsRead(events: seq<Event>, m: nat, init: seq<Input>, left: seq<byte>, last: Input, rest: seq<byte>)
    requires Reached(events, |events|, m, init, left)
    requires Takes(left, last, rest) && last != Stopped && last != Lost(IoError)
    ensures Reached(events, |events|, m + 1, init + [last], rest)
  {
    assert events[|events|..] == [];
    EmptyStream();
    assert last == Lost(EofError);
    assert Ends(m) + [last] == Ends(m + 1);
    Associate(Gots(events[..|events|]), Ends(m), [last]);
  }

  lemma {:induction false} RunClosed<S>(engine: Engine<S>, offer: Offer, s: S, inputs: seq<Input>)
    ensures Run(engine, offer, Closed, s, inputs) == Turn(Closed, s, [])
    decreases |inputs|
  {
    if inputs != [] {
      RunClosed(engine, offer, s, inputs[1..]);
    }
  }

  /** At the top of the loop the end of the stream changes nothing any more. */
  lemma RunEnds<S>(engine: Engine<S>, offer: Offer, s: S, m: nat)
    ensures var t := Run(engine, offer, Top, s, Ends(m)); t.s == s && t.actions == []
  {
    if m > 0 {
      assert Ends(m)[0] == Lost(EofError);
      RunClosed(engine, offer, s, Ends(m)[1..]);
    }
  }

  /** When the events leave the server at the top of its loop, a run up to the closed state has read all of them. */
  lemma RunOverWrittenEvents<S>(engine: Engine<S>, offer: Offer, s: S, events: seq<Event>, k: nat, m: nat)
    requires k <= |events| && (m > 0 ==> k == |events|) && Serve(engine, offer, Top, s, events).state == Top
    requires Run(engine, offer, Top, s, Gots(events[..k]) + Ends(m)).state == Closed
    ensures var t := Run(engine, offer, Top, s, Gots(events[..k]) + Ends(m)); var u := Serve(engine, offer, Top, s,
      events);
            k == |events| && t.s == u.s && SentEvents(t.actions) == u.replies
  {
    var head, tail := events[..k], events[k..];
    TakeDrop(events, k);
    ServeIsRun(engine, offer, Top, s, head);
    ServeAppend(engine, offer, Top, s, head, tail);
    var t := Run(engine, offer, Top, s, Gots(head));
    if k < |events| {
      assert Gots(head) + Ends(0) == Gots(head);
      ClosedStays(engine, offer, t.s, tail);
      assert false;
    } else {
      RunAppend(engine, offer, Top, s, Gots(head), Ends(m));
      RunEnds(engine, offer, t.s, m);
      assert t.actions + [] == t.actions;
    }
  }

  /** The bytes of the replies are the frames of those that fit the printer. */
  lemma {:induction false} RepliesAreFrames(actions: seq<Action>)
    ensures Replies(actions) == Frames(Kept(SentEvents(actions)))
    decreases |actions|
  {
    if actions != [] {
      var init, last := actions[..|actions| - 1], actions[|actions| - 1];
      Snoc(actions);
      SentEventsAppend(init, [last]);
      SentShort(last, last);
      RepliesAreFrames(init);
      KeptAppend(SentEvents(init), SentEvents([last]));
      FramesAppend(Kept(SentEvents(init)), Kept(SentEvents([last])));
      if last.Sent? {
        KeptOne(last.event);
        Client.FramesOfOne(last.event);
      }
    }
  }

  /** A client has written some events and closed its side; the server serves the connection. Whatever the
      schedule, the engines end up where serving the list of events takes them, and the client's stream holds
      exactly the frames of the replies that fit the printer. */
  method ServeWritten<S>(io: IoBuf, server: Registry.Server, engine: Engine<S>, s: S, ghost events: seq<Event>)
    returns (s': S)
    requires io.Valid() && server.Valid() && server.hasTts == engine.tts.Some? && server.hasAsr == engine.asr.Some?
    requires Unbroken(io.fd.script) && io.Pending() == Frames(events) && AllTravel(events)
    requires Serve(engine, server.Offered(), Top, s, events).state == Top
    modifies io`pos, io`len, io.buf, io.fd`incoming, io.fd`outgoing, io.fd`script
    ensures var u := Serve(engine, old(server.Offered()), Top, s, events);
            s' == u.s && io.fd.outgoing == old(io.fd.outgoing) + Frames(Kept(u.replies))
  {
    ghost var before, offer := io.fd.outgoing, server.Offered();
    var handler := new Handler(io, server, engine, s, []);
    handler.HandleClient();
    ghost var k, m := WrittenEventsAreRead(events, handler.inputs, io.Pending());
    RunOverWrittenEvents(engine, offer, s, events, k, m);
    RepliesAreFrames(handler.actions);
    s' := handler.s;
  }
}
