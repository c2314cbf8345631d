/** Whole streams of events through the imperative writer and reader. */
module EventRelay {
  import opened Bytes
  import opened Wire
  import opened Stream
  import opened EventIo

  /** The events one after the other. */
  method WriteEvents(fd: Socket, events: seq<Event>)
    requires AllTravel(events) && Unbroken(fd.script)
    modifies fd`outgoing, fd`script
    ensures fd.outgoing == old(fd.outgoing) + Frames(events) && Unbroken(fd.script)
  {
    ghost var before := fd.outgoing;
    var i := 0;
    assert events[..0] == [] && before + Frames([]) == before;
    while i < |events|
      invariant i <= |events| && Unbroken(fd.script)
      invariant fd.outgoing == before + Frames(events[..i])
    {
      var rc := WriteEvent(fd, events[i]);
      FramesUpTo(before, events, i);
      i := i + 1;
    }
    assert events[..i] == events;
  }

  lemma FramesUpTo(before: seq<byte>, events: seq<Event>, i: nat)
    requires i < |events|
    ensures before + Frames(events[..i]) + Frame(events[i]) == before + Frames(events[..i + 1])
  {
    assert events[..i + 1] == events[..i] + [events[i]];
    FramesOfMore(events[..i], events[i], []);
    Associate(before, Frames(events[..i]), Frame(events[i]));
    assert Frames(events[..i + 1]) + [] == Frames(events[..i + 1]) && Frame(events[i]) + [] == Frame(events[i]);
  }

  /** As many reads as events were written. */
  method ReadEvents(io: IoBuf, n: nat, ghost events: seq<Event>, ghost rest: seq<byte>) returns (received: seq<Event>)
    requires io.Valid() && Unbroken(io.fd.script)
    requires |events| == n && AllTravel(events) && io.Pending() == Frames(events) + rest
    modifies io`pos, io`len, io.buf, io.fd`incoming, io.fd`script
    ensures io.Valid() && received == events && io.Pending() == rest
  {
    hide Wire.ReadEvent, Sendable, Readable, Frame;
    received := [];
    assert events[0..] == events && events[..0] == [];
    while |received| < n
      invariant io.Valid() && Unbroken(io.fd.script)
      invariant |received| <= n && received == events[..|received|]
      invariant io.Pending() == Frames(events[|received|..]) + rest
    {
      var reply := EventIo.ReadEvent(io);
      FirstOfMany(events, |received|, rest);
      received := received + [reply.event];
    }
    assert Frames(events[n..]) + rest == rest;
  }

  lemma FirstOfMany(events: seq<Event>, i: nat, rest: seq<byte>)
    requires i < |events| && AllTravel(events)
    ensures Wire.ReadEvent(Frames(events[i..]) + rest) == Read(events[i], Frames(events[i + 1..]) + rest)
    ensures events[..i + 1] == events[..i] + [events[i]]
  {
    assert events[i..][1..] == events[i + 1..];
    Associate(Frame(events[i]), Frames(events[i + 1..]), rest);
    ReadUndoesFrame(events[i], Frames(events[i + 1..]) + rest);
  }

  /** What one side writes the other reads, for every schedule of both descriptors. */
  method Relay(events: seq<Event>, writing: seq<Outcome>, reading: seq<Outcome>) returns (received: seq<Event>)
    requires AllTravel(events) && Unbroken(writing) && Unbroken(reading)
    ensures received == events
  {
    var sender := new Socket([], writing);
    WriteEvents(sender, events);
    var receiver := new Socket(sender.outgoing, reading);
    var io := new IoBuf(receiver);
    assert [] + Frames(events) == Frames(events) == Frames(events) + [];
    received := ReadEvents(io, |events|, events, []);
  }
}
