/** What a reader can make of the bytes of a queue of events while some of them are still under way. */
module Arrival {
  import opened Bytes
  import opened Json
  import opened JsonParse
  import opened Wire

  /** A whole event has arrived, or enough of one to see that it is broken; otherwise a reader waits. */
  predicate HasArrived(bytes: seq<byte>) {
    ReadEvent(bytes).Read? || ReadEvent(bytes).error != EofError
  }

  function Behind(r: ReadResult, more: seq<byte>): ReadResult {
    match r
    case Read(e, rest) => Read(e, rest + more)
    case Failed(error, rest) => Failed(error, rest + more)
  }

  lemma DropMore(s: seq<byte>, more: seq<byte>, n: nat)
    requires n <= |s|
    ensures (s + more)[..n] == s[..n] && (s + more)[n..] == s[n..] + more
  {
  }

  lemma PayloadThenMore(typ: seq<byte>, data: Option<Value>, n: nat, s: seq<byte>, more: seq<byte>)
    requires n <= |s|
    ensures ReadPayload(typ, data, n, s + more) == Behind(ReadPayload(typ, data, n, s), more)
  {
    DropMore(s, more, n);
  }

  lemma BlocksThenMore(typ: seq<byte>, d: nat, p: nat, s: seq<byte>, more: seq<byte>)
    requires ReadBlocks(typ, d, p, s).Read? || ReadBlocks(typ, d, p, s).error != EofError
    ensures ReadBlocks(typ, d, p, s + more) == Behind(ReadBlocks(typ, d, p, s), more)
  {
    DropMore(s, more, d);
    var data := if d == 0 then None else Parse(s[..d]);
    if d == 0 || data.Some? {
      PayloadThenMore(typ, data, p, s[d..], more);
    }
  }

  lemma LineThenMore(s: seq<byte>, more: seq<byte>)
    requires LineEnd(s) < |s|
    ensures LineEnd(s + more) == LineEnd(s)
  {
    LineEndAt(s + more, LineEnd(s));
  }

  /** What has arrived is read in the same way whatever follows it. */
  lemma ReadThenMore(s: seq<byte>, more: seq<byte>)
    requires HasArrived(s)
    ensures ReadEvent(s + more) == Behind(ReadEvent(s), more)
  {
    hide ReadBlocks, Parse, LineEnd, HeaderType, HeaderLength;
    var n := LineEnd(s);
    LineThenMore(s, more);
    DropMore(s, more, n);
    DropMore(s, more, n + 1);
    var header := Parse(s[..n]);
    if header.Some? && HeaderType(header.value).Some? {
      BlocksThenMore(HeaderType(header.value).value, HeaderLength(header.value, DATA_LENGTH),
                     HeaderLength(header.value, PAYLOAD_LENGTH), s[n + 1..], more);
    }
  }

  lemma ReadingTakesBytes(s: seq<byte>)
    requires HasArrived(s)
    ensures |ReadEvent(s).rest| < |s|
  {
  }

  // -------- a queue of events as bytes

  /** The bytes that have arrived and those still to be sent are the frames of this queue. */
  predicate Carries(arrived: seq<byte>, unsent: seq<byte>, queue: seq<Event>) {
    AllTravel(queue) && arrived + unsent == Frames(queue)
  }

  lemma NothingHasArrived()
    ensures !HasArrived([])
  {
  }

  /** A reader gets the events of the queue, whole and in order, and never sees a broken one, wherever the
      bytes that have arrived so far end. */
  lemma ReaderTakesFirst(arrived: seq<byte>, unsent: seq<byte>, queue: seq<Event>)
    requires Carries(arrived, unsent, queue) && HasArrived(arrived)
    ensures queue != [] && ReadEvent(arrived) == Read(queue[0], ReadEvent(arrived).rest)
    ensures Carries(ReadEvent(arrived).rest, unsent, queue[1..])
  {
    if queue == [] {
      NothingHasArrived();
      assert false;
    } else {
      ReadThenMore(arrived, unsent);
      ReadUndoesFrame(queue[0], Frames(queue[1..]));
    }
  }

  /** When everything has been sent and something of it is left, a reader need not wait. */
  lemma WholeQueueHasArrived(arrived: seq<byte>, queue: seq<Event>)
    requires Carries(arrived, [], queue) && arrived != []
    ensures HasArrived(arrived)
  {
    assert arrived + [] == arrived;
    ReadUndoesFrame(queue[0], Frames(queue[1..]));
  }

  /** Some of the outstanding bytes are sent. */
  lemma SendSome(arrived: seq<byte>, unsent: seq<byte>, queue: seq<Event>, n: nat)
    requires Carries(arrived, unsent, queue) && n <= |unsent|
    ensures Carries(arrived + unsent[..n], unsent[n..], queue)
  {
    TakeDrop(unsent, n);
    Associate(arrived, unsent[..n], unsent[n..]);
  }

  /** More events behind the queue. */
  lemma QueueMore(arrived: seq<byte>, queue: seq<Event>, more: seq<Event>)
    requires Carries(arrived, [], queue) && AllTravel(more)
    ensures Carries(arrived, Frames(more), queue + more)
  {
    assert arrived + [] == arrived;
    FramesAppend(queue, more);
    AllTravelAppend(queue, more);
  }

  lemma QueueJoined(arrived: seq<byte>, unsent: seq<byte>, queue: seq<Event>, more: seq<Event>)
    requires Carries(arrived, [], queue) && Carries([], unsent, more)
    ensures Carries(arrived, unsent, queue + more)
  {
    assert [] + unsent == unsent;
    QueueMore(arrived, queue, more);
  }

  lemma AllTravelAppend(a: seq<Event>, b: seq<Event>)
    requires AllTravel(a) && AllTravel(b)
    ensures AllTravel(a + b)
  {
    forall i | 0 <= i < |a + b| ensures Sendable((a + b)[i]) && Readable((a + b)[i]) {
      assert (a + b)[i] == if i < |a| then a[i] else b[i - |a|];
    }
  }

  lemma EmptyQueue(arrived: seq<byte>, unsent: seq<byte>, queue: seq<Event>)
    requires Carries(arrived, unsent, queue)
    ensures queue == [] <==> arrived == [] && unsent == []
  {
    if queue != [] {
      FramesAreNotEmpty(queue);
    }
  }
}
