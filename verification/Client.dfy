/** The client functions, call by call: what they write and how their result follows from what they read. */
module Client {
  import opened Bytes
  import opened Json
  import opened Wire
  import opened Stream
  import opened EventIo
  import opened Audio
  import opened Protocol
  import opened Catalog
  import opened ServerMachine
  import opened ClientMachine

  const CLIENT_CAPACITY: nat := 4096

  /** The return of a client function: an argument it refuses, an error of the connection, or the end of
      the operation. */
  datatype Return = Refused | Failure(error: Error) | Returned(result: Result)

  /** The receiver after replies that do not complete the operation. */
  function Advance(r: Receiver, events: seq<Event>): Option<Receiver>
    decreases |events|
  {
    if events == [] then Some(r)
    else
      match Advance(r, events[..|events| - 1])
      case None => None
      case Some(next) =>
        var p := Receive(next, events[|events| - 1]);
        if p.More? then Some(p.receiver) else None
  }

  lemma AdvanceMore(r: Receiver, events: seq<Event>, e: Event)
    requires Advance(r, events).Some?
    ensures Advance(r, events + [e])
            == var p := Receive(Advance(r, events).value, e); if p.More? then Some(p.receiver) else None
  {
    assert (events + [e])[..|events|] == events;
  }

  lemma {:induction false} AdvanceThenCollect(r: Receiver, events: seq<Event>, rest: seq<Event>)
    requires Advance(r, events).Some?
    ensures Collected(r, events + rest) == Collected(Advance(r, events).value, rest)
    decreases |events|
  {
    if events == [] {
      assert events + rest == rest;
    } else {
      var init, e := events[..|events| - 1], events[|events| - 1];
      assert events + rest == init + ([e] + rest);
      AdvanceThenCollect(r, init, [e] + rest);
      assert ([e] + rest)[1..] == rest;
    }
  }

  /** The reply that completes an operation. */
  lemma LastReply(r: Receiver, events: seq<Event>, e: Event)
    requires Advance(r, events).Some?
    ensures var p := Receive(Advance(r, events).value, e);
            p.Complete? ==> Collected(r, events + [e]) == Some((p.result, []))
  {
    AdvanceThenCollect(r, events, [e]);
    assert [e][1..] == [];
  }

  // -------- sending

  predicate AllSendable(events: seq<Event>) {
    forall i :: 0 <= i < |events| ==> Sendable(events[i])
  }

  /** From `before` on, these events or a part of them went out; all of them when nothing failed. */
  predicate Wrote(before: seq<byte>, after: seq<byte>, events: seq<Event>, rc: Option<Error>) {
    before <= after && after <= before + Frames(events) && (rc == None ==> after == before + Frames(events))
  }

  lemma WroteMore(before: seq<byte>, between: seq<byte>, after: seq<byte>, a: seq<Event>, b: seq<Event>,
      rc: Option<Error>)
    requires Wrote(before, between, a, None) && Wrote(between, after, b, rc)
    ensures Wrote(before, after, a + b, rc)
  {
    FramesAppend(a, b);
    Associate(before, Frames(a), Frames(b));
  }

  lemma WroteLess(before: seq<byte>, after: seq<byte>, a: seq<Event>, b: seq<Event>, rc: Option<Error>)
    requires Wrote(before, after, a, rc) && rc != None
    ensures Wrote(before, after, a + b, rc)
  {
    FramesAppend(a, b);
    Associate(before, Frames(a), Frames(b));
  }

  lemma FramesOfOne(e: Event)
    ensures Frames([e]) == Frame(e)
  {
    assert [e][1..] == [];
    assert Frame(e) + [] == Frame(e);
  }

  lemma LanguageTravels(k: Protocol.Kind, language: Option<seq<byte>>)
    requires k != Other && (language.Some? ==> NoNul(language.value))
    ensures Travels(Event(TypeOf(k), Fields(LanguageFields(language)), []))
  {
    TypesAreText(k);
    AsciiHasNoNul("language");
    assert Light([], 0);
    if Language(language).Some? {
      LightCons(Member(LANGUAGE, String(language.value)), [], 0);
      assert LanguageFields(language) == [Member(LANGUAGE, String(language.value))] + [];
    }
    FieldsTravel(TypeOf(k), LanguageFields(language), []);
  }

  lemma SynthesizeTravels(text: seq<byte>, voice: Option<seq<byte>>)
    requires NoNul(text) && (voice.Some? ==> NoNul(voice.value))
    ensures Travels(SynthesizeEvent(text, voice))
  {
    TypesAreText(Protocol.Synthesize);
    AsciiHasNoNul("text");
    AsciiHasNoNul("voice");
    AsciiHasNoNul("name");
    var data := SynthesizeEvent(text, voice).data.value;
    if voice.Some? {
      var inner := [Member(NAME, String(voice.value))];
      assert inner[1..] == [];
      assert Printable(Object(inner)) && NestsWithin(Object(inner), 1);
      var outer := [Member(VOICE, Object(inner))];
      assert outer[1..] == [];
      assert data.members == [Member(TEXT, String(text))] + outer && data.members[1..] == outer;
      assert MembersPrintable(outer) && MembersNest(outer, 1);
      assert MembersPrintable(data.members) && MembersNest(data.members, 1);
      assert NestsWithin(data, 2) && Printable(data);
      NestsMore(data, 2, NESTING_LIMIT);
    } else {
      assert Light([], 0);
      LightCons(Member(TEXT, String(text)), [], 0);
      assert data.members == [Member(TEXT, String(text))] + [];
      FieldsTravel(SYNTHESIZE, data.members, []);
    }
  }

  // -------- receiving

  /** How a wait for replies ends: after exactly the replies that complete the operation, with their result;
      or with the error of the read behind replies that do not complete it. */
  ghost predicate Concludes(r: Receiver, stream: seq<byte>, heard: seq<Event>, rest: seq<byte>, ret: Return) {
    match ret
    case Refused => false
    case Returned(result) => Yields(stream, heard, rest) && Collected(r, heard) == Some((result, []))
    case Failure(error) =>
      error == IoError || (Advance(r, heard).Some? && FailsBehind(stream, heard, error, rest))
  }

  /** What one more reply means for the operation. */
  predicate Follows(start: Receiver, heard: seq<Event>, e: Event, p: Progress) {
    match p
    case More(next) => Advance(start, heard + [e]) == Some(next)
    case Complete(result) => Collected(start, heard + [e]) == Some((result, []))
  }

  ghost predicate FailsBehind(stream: seq<byte>, heard: seq<Event>, error: Error, rest: seq<byte>) {
    exists left {:trigger FailsTo(left, error, rest)} :: Yields(stream, heard, left) && FailsTo(left, error, rest)
  }

  /** Reading needs no memory that could be missing. */
  lemma ReadingHasMemory(r: Receiver, stream: seq<byte>, heard: seq<Event>, rest: seq<byte>, ret: Return)
    requires Concludes(r, stream, heard, rest, ret)
    ensures ret != Refused && ret != Failure(NoMemError)
  {
    hide Yields, Advance, Collected;
    if ret.Failure? && ret.error != IoError {
      var left :| Yields(stream, heard, left) && FailsTo(left, ret.error, rest);
      FailureIsOfInput(left);
    }
  }

  lemma FailureIsOfInput(s: seq<byte>)
    ensures Wire.ReadEvent(s).Failed? ==> Wire.ReadEvent(s).error != NoMemError
  {
  }

  predicate FailsTo(s: seq<byte>, error: Error, rest: seq<byte>) {
    Wire.ReadEvent(s) == Failed(error, rest)
  }

  /** The descriptor holds and everything the operation sends fits the printer. */
  predicate Smooth(op: Op, script: seq<Outcome>) {
    Unbroken(script) && AllSendable(Requests(op))
  }

  /** A connection of a client. */
  class Conn {
    const io: IoBuf

    constructor (fd: Socket)
      ensures io.Valid() && io.fd == fd && fresh(io) && fresh(io.buf) && io.Pending() == fd.incoming
    {
      io := new IoBuf(fd);
    }

    /** wyoming_write_event */
    method Send(e: Event) returns (rc: Option<Error>)
      requires io.Valid() && Writable(e)
      modifies io.fd`outgoing, io.fd`script
      ensures io.Valid() && Wrote(old(io.fd.outgoing), io.fd.outgoing, [e], rc)
      ensures Unbroken(old(io.fd.script)) ==> Unbroken(io.fd.script) && (Sendable(e) ==> rc == None)
    {
      FramesOfOne(e);
      rc := WriteEvent(io.fd, e);
    }

    /** Two events, the second only when the first went out. */
    method SendBoth(a: Event, b: Event) returns (rc: Option<Error>)
      requires io.Valid() && Writable(a) && Writable(b)
      modifies io.fd`outgoing, io.fd`script
      ensures io.Valid() && Wrote(old(io.fd.outgoing), io.fd.outgoing, [a, b], rc)
      ensures Unbroken(old(io.fd.script)) ==> Unbroken(io.fd.script) && (Sendable(a) && Sendable(b) ==> rc == None)
    {
      ghost var before := io.fd.outgoing;
      assert [a] + [b] == [a, b];
      rc := Send(a);
      if rc != None {
        WroteLess(before, io.fd.outgoing, [a], [b], rc);
        return rc;
      }
      ghost var between := io.fd.outgoing;
      rc := Send(b);
      WroteMore(before, between, io.fd.outgoing, [a], [b], rc);
    }

    /** wyoming_read_event, behind replies that did not complete the operation. */
    method Hear(ghost start: Receiver, ghost stream: seq<byte>, ghost heard: seq<Event>) returns (reply: Reply)
      requires io.Valid() && Yields(stream, heard, io.Pending()) && Advance(start, heard).Some?
      modifies io`pos, io`len, io.buf, io.fd`incoming, io.fd`script
      ensures io.Valid() && (Unbroken(old(io.fd.script)) ==> Unbroken(io.fd.script) && reply != Reply.Lost(IoError))
      ensures reply.Got? ==> Yields(stream, heard + [reply.event], io.Pending()) && |io.Pending()| < |old(io.Pending())|
      ensures reply.Got? ==> Follows(start, heard, reply.event, Receive(Advance(start, heard).value, reply.event))
      ensures reply.Lost? ==> Concludes(start, stream, heard, io.Pending(), Failure(reply.error))
      ensures |io.Pending()| <= |old(io.Pending())|
    {
      ghost var left := io.Pending();
      reply := EventIo.ReadEvent(io);
      if reply.Got? {
        ReadConsumes(left);
        YieldsMore(stream, heard, left, reply.event, io.Pending());
        AdvanceMore(start, heard, reply.event);
        LastReply(start, heard, reply.event);
      } else if reply.error != IoError {
        assert FailsTo(left, reply.error, io.Pending());
      }
    }

    /** The operation wrote its requests, all of them or up to a failure, and then concluded with the replies. */
    ghost predicate Performs(op: Op, stream: seq<byte>, before: seq<byte>, heard: seq<Event>, ret: Return)
      requires io.Valid()
      reads io`pos, io`len, io.buf, io.fd`incoming, io.fd`outgoing
    {
      || (ret.Failure? && heard == [] && Wrote(before, io.fd.outgoing, Requests(op), Some(ret.error)))
      || (io.fd.outgoing == before + Frames(Requests(op)) && Concludes(Begin(op), stream, heard, io.Pending(), ret))
    }

    // -------- synthesize

    /** wyoming_synthesize */
    method Synthesize(text: Text, voice: Option<Text>) returns (rc: Option<Error>)
      requires io.Valid()
      modifies io.fd`outgoing, io.fd`script
      ensures io.Valid() && Wrote(old(io.fd.outgoing), io.fd.outgoing, Requests(SynthesizeOp(text, voice)), rc)
      ensures Unbroken(old(io.fd.script)) ==>
        Unbroken(io.fd.script) && (Sendable(SynthesizeEvent(text, voice)) ==> rc == None)
    {
      SynthesizeTravels(text, voice);
      rc := Send(SynthesizeEvent(text, voice));
    }

    /** The loop that collects the speech. */
    method ReceiveSpeech() returns (ret: Return, ghost heard: seq<Event>, ghost growths: nat)
      requires io.Valid()
      modifies io`pos, io`len, io.buf, io.fd`incoming, io.fd`script
      ensures io.Valid()
      ensures Concludes(AwaitSpeech(false, Format(0, 0, 0), []), old(io.Pending()), heard, io.Pending(), ret)
      ensures ret.Returned? && ret.result.Spoken? ==>
        var n := if |ret.result.pcm| < 2048 then 2048 else |ret.result.pcm|; growths <= 1 + Log2(n / 2048)
      ensures Unbroken(old(io.fd.script)) ==> Unbroken(io.fd.script) && ret != Failure(IoError)
      ensures ret != Refused && ret != Failure(NoMemError)
    {
      ghost var stream := io.Pending();
      var collector := new Collector(CLIENT_CAPACITY);
      var gotStart, format, result: Option<Return> := false, Format(0, 0, 0), None;
      heard := [];
      while result.None?
        invariant collector.Valid() && collector.least == CLIENT_CAPACITY && fresh(collector) && fresh(collector.pcm)
        invariant io.Valid()
          && (Unbroken(old(io.fd.script)) ==> Unbroken(io.fd.script) && result != Some(Failure(IoError)))
        invariant result.None? ==> Yields(stream, heard, io.Pending())
        invariant result.None? ==>
          Advance(AwaitSpeech(false, Format(0, 0, 0), []), heard)
              == Some(AwaitSpeech(gotStart, format, collector.Contents()))
        invariant result.Some?
          ==> Concludes(AwaitSpeech(false, Format(0, 0, 0), []), stream, heard, io.Pending(), result.value)
        invariant result.Some? && result.value.Returned? && result.value.result.Spoken? ==>
          |result.value.result.pcm| == collector.total
        decreases |io.Pending()|, result.None?
      {
        result, gotStart, format, heard :=
          NextSpeech(collector, gotStart, format, AwaitSpeech(false, Format(0, 0, 0), []), stream, heard);
      }
      ReadingHasMemory(AwaitSpeech(false, Format(0, 0, 0), []), stream, heard, io.Pending(), result.value);
      GrowthsAreLogarithmic(collector, 2048);
      return result.value, heard, collector.growths;
    }

    /** One turn of the loop. */
    method NextSpeech(collector: Collector, gotStart: bool, format: Format,
                      ghost start: Receiver, ghost stream: seq<byte>, ghost heard: seq<Event>)
      returns (result: Option<Return>, gotStart': bool, format': Format, ghost heard': seq<Event>)
      requires io.Valid() && Yields(stream, heard, io.Pending()) && collector.Valid()
      requires Advance(start, heard) == Some(AwaitSpeech(gotStart, format, collector.Contents()))
      modifies io`pos, io`len, io.buf, io.fd`incoming, io.fd`script
      modifies collector`pcm, collector`total, collector`growths, collector.pcm
      ensures collector.Valid() && (collector.pcm == old(collector.pcm) || fresh(collector.pcm))
      ensures io.Valid() && (result.None? ==> |io.Pending()| < |old(io.Pending())|)
      ensures |io.Pending()| <= |old(io.Pending())|
      ensures Unbroken(old(io.fd.script)) ==> Unbroken(io.fd.script) && result != Some(Failure(IoError))
      ensures result.None? ==> Yields(stream, heard', io.Pending())
      ensures result.None? ==> Advance(start, heard') == Some(AwaitSpeech(gotStart', format', collector.Contents()))
      ensures result.Some? ==> Concludes(start, stream, heard', io.Pending(), result.value)
      ensures result.Some? && result.value.Returned? && result.value.result.Spoken? ==>
        |result.value.result.pcm| == collector.total
    {
      hide BuildInfo, InfoOf, Sendable, Yields, OnText, OnFinal, OnSpeech, FailsBehind, Advance, KindOf, Collected,
           Receive, Follows;
      var reply := Hear(start, stream, heard);
      gotStart', format', heard' := gotStart, format, heard;
      if reply.Lost? {
        return Some(Failure(reply.error)), gotStart', format', heard';
      }
      var r;
      r, gotStart', format' := TakeSpeech(collector, gotStart, format, reply.event, start, stream, heard, io.Pending());
      heard' := heard + [reply.event];
      result := if r.Some? then Some(Returned(r.value)) else None;
    }

    /** A reply that has been heard: what it means for the operation. */
    method TakeSpeech(collector: Collector, gotStart: bool, format: Format, e: Event,
                      ghost start: Receiver, ghost stream: seq<byte>, ghost heard: seq<Event>, ghost rest: seq<byte>)
      returns (result: Option<Result>, gotStart': bool, format': Format)
      requires collector.Valid() && Yields(stream, heard + [e], rest)
      requires Follows(start, heard, e, Receive(AwaitSpeech(gotStart, format, collector.Contents()), e))
      modifies collector`pcm, collector`total, collector`growths, collector.pcm
      ensures collector.Valid() && (collector.pcm == old(collector.pcm) || fresh(collector.pcm))
      ensures result.None?
        ==> Advance(start, heard + [e]) == Some(AwaitSpeech(gotStart', format', collector.Contents()))
      ensures result.Some? ==> Concludes(start, stream, heard + [e], rest, Returned(result.value))
      ensures result.Some? && result.value.Spoken? ==> |result.value.pcm| == collector.total
    {
      hide BuildInfo, InfoOf, Yields, OnText, OnFinal, OnSpeech, FailsBehind, Advance, KindOf, Collected;
      result, gotStart', format' := Absorb(collector, gotStart, format, e);
    }

    /** One reply to a synthesize request. */
    method Absorb(collector: Collector, gotStart: bool, format: Format, e: Event)
      returns (result: Option<Result>, gotStart': bool, format': Format)
      requires collector.Valid()
      modifies collector`pcm, collector`total, collector`growths, collector.pcm
      ensures collector.Valid() && (collector.pcm == old(collector.pcm) || fresh(collector.pcm))
      ensures result.Some? && result.value.Spoken? ==> |result.value.pcm| == collector.total
      ensures OnSpeech(AwaitSpeech(gotStart, format, old(collector.Contents())), e)
              == if result.Some? then Complete(result.value) else
                 More(AwaitSpeech(gotStart', format', collector.Contents()))
    {
      result, gotStart', format' := None, gotStart, format;
      match KindOf(e.typ) {
        case AudioStart =>
          gotStart', format' := true, FormatOf(e, format);
        case AudioChunk =>
          if gotStart {
            collector.Append(ToSamples(e.payload));
          } else {
            result := Some(ProtocolError);
          }
        case AudioStop =>
          result := Some(Spoken(collector.pcm[..collector.total], format));
        case ErrorKind =>
          result := Some(ProtocolError);
        case _ =>
      }
    }

    /** wyoming_synthesize_pcm */
    method SynthesizePcm(text: Text, voice: Option<Text>) returns (ret: Return, ghost heard: seq<Event>)
      requires io.Valid()
      modifies io`pos, io`len, io.buf, io.fd`incoming, io.fd`outgoing, io.fd`script
      ensures io.Valid() && Performs(SynthesizeOp(text, voice), old(io.Pending()), old(io.fd.outgoing), heard, ret)
      ensures Smooth(SynthesizeOp(text, voice), old(io.fd.script))
        ==> ret != Failure(IoError) && ret != Failure(NoMemError)
    {
      hide BuildInfo, InfoOf, Sendable, Yields, Concludes, FailsBehind;
      heard := [];
      var rc := Synthesize(text, voice);
      if rc != None {
        return Failure(rc.value), heard;
      }
      ghost var growths;
      ret, heard, growths := ReceiveSpeech();
    }

    // -------- describe

    /** wyoming_describe */
    method Describe() returns (ret: Return, ghost heard: seq<Event>)
      requires io.Valid()
      modifies io`pos, io`len, io.buf, io.fd`incoming, io.fd`outgoing, io.fd`script
      ensures io.Valid() && Performs(DescribeOp, old(io.Pending()), old(io.fd.outgoing), heard, ret)
      ensures Smooth(DescribeOp, old(io.fd.script)) ==> ret != Failure(IoError) && ret != Failure(NoMemError)
    {
      hide BuildInfo, InfoOf, Sendable, Yields, Concludes, FailsBehind;
      heard := [];
      BareTravels(Protocol.Describe);
      var rc := Send(Bare(Protocol.Describe));
      if rc != None {
        return Failure(rc.value), heard;
      }
      ret, heard := ReceiveInfo();
    }

    /** The one reply to a describe. */
    method ReceiveInfo() returns (ret: Return, ghost heard: seq<Event>)
      requires io.Valid()
      modifies io`pos, io`len, io.buf, io.fd`incoming, io.fd`script
      ensures io.Valid() && Concludes(AwaitInfo, old(io.Pending()), heard, io.Pending(), ret)
      ensures Unbroken(old(io.fd.script)) ==> Unbroken(io.fd.script) && ret != Failure(IoError)
      ensures ret != Refused && ret != Failure(NoMemError)
    {
      hide BuildInfo, InfoOf, Sendable, OnSpeech, OnText, OnFinal, FailsBehind;
      ghost var stream := io.Pending();
      heard := [];
      var reply := Hear(AwaitInfo, stream, heard);
      if reply.Lost? {
        ret := Failure(reply.error);
        ReadingHasMemory(AwaitInfo, stream, heard, io.Pending(), ret);
        return ret, heard;
      }
      heard := heard + [reply.event];
      if KindOf(reply.event.typ) != Info {
        return Returned(ProtocolError), heard;
      }
      var info := ReadInfo(reply.event.data);
      ret := Returned(Described(info));
    }

    // -------- transcribe

    /** The loop that waits for a transcript. */
    method ReceiveText() returns (ret: Return, ghost heard: seq<Event>)
      requires io.Valid()
      modifies io`pos, io`len, io.buf, io.fd`incoming, io.fd`script
      ensures io.Valid() && Concludes(AwaitText, old(io.Pending()), heard, io.Pending(), ret)
      ensures Unbroken(old(io.fd.script)) ==> Unbroken(io.fd.script) && ret != Failure(IoError)
      ensures ret != Refused && ret != Failure(NoMemError)
    {
      ghost var stream := io.Pending();
      var result: Option<Return> := None;
      heard := [];
      while result.None?
        invariant io.Valid()
          && (Unbroken(old(io.fd.script)) ==> Unbroken(io.fd.script) && result != Some(Failure(IoError)))
        invariant result.None? ==> Yields(stream, heard, io.Pending()) && Advance(AwaitText, heard) == Some(AwaitText)
        invariant result.Some? ==> Concludes(AwaitText, stream, heard, io.Pending(), result.value)
        decreases |io.Pending()|, result.None?
      {
        result, heard := NextText(stream, heard);
      }
      ret := result.value;
      ReadingHasMemory(AwaitText, stream, heard, io.Pending(), ret);
    }

    /** One turn of the loop. */
    method NextText(ghost stream: seq<byte>, ghost heard: seq<Event>)
      returns (result: Option<Return>, ghost heard': seq<Event>)
      requires io.Valid() && Yields(stream, heard, io.Pending()) && Advance(AwaitText, heard) == Some(AwaitText)
      modifies io`pos, io`len, io.buf, io.fd`incoming, io.fd`script
      ensures io.Valid() && |io.Pending()| <= |old(io.Pending())|
      ensures Unbroken(old(io.fd.script)) ==> Unbroken(io.fd.script) && result != Some(Failure(IoError))
      ensures result.None? ==> Yields(stream, heard', io.Pending()) && Advance(AwaitText, heard') == Some(AwaitText)
                               && |io.Pending()| < |old(io.Pending())|
      ensures result.Some? ==> Concludes(AwaitText, stream, heard', io.Pending(), result.value)
    {
      hide BuildInfo, InfoOf, Sendable, Yields, OnSpeech, OnFinal, FailsBehind, Advance;
      var reply := Hear(AwaitText, stream, heard);
      if reply.Lost? {
        return Some(Failure(reply.error)), heard;
      }
      heard' := heard + [reply.event];
      result := None;
      var kind := KindOf(reply.event.typ);
      if kind == Transcript {
        var text := AsText(Field(reply.event, TEXT));
        result := Some(Returned(if text.Some? then Said(text) else ProtocolError));
      } else if kind == ErrorKind {
        result := Some(Returned(ProtocolError));
      }
    }

    /** The audio in pieces of 1024 samples. */
    method SendChunks(pcm: seq<Sample>, format: Format) returns (rc: Option<Error>)
      requires io.Valid()
      modifies io.fd`outgoing, io.fd`script
      ensures io.Valid()
      ensures var events := ChunkEvents(format, Chunks(pcm, SEND_CHUNK_SAMPLES));
              Wrote(old(io.fd.outgoing), io.fd.outgoing, events, rc)
              && (Unbroken(old(io.fd.script)) ==> Unbroken(io.fd.script) && (AllSendable(events) ==> rc == None))
    {
      hide Sendable, Readable;
      ghost var before, events := io.fd.outgoing, ChunkEvents(format, Chunks(pcm, SEND_CHUNK_SAMPLES));
      ghost var sent: seq<Event> := [];
      var offset := 0;
      rc := None;
      assert pcm[0..] == pcm && before + Frames([]) == before;
      while offset < |pcm|
        invariant io.Valid() && offset <= |pcm| && rc == None && Wrote(before, io.fd.outgoing, sent, None)
        invariant events == sent + ChunkEvents(format, Chunks(pcm[offset..], SEND_CHUNK_SAMPLES))
        invariant Unbroken(old(io.fd.script)) ==> Unbroken(io.fd.script)
      {
        var chunk := |pcm| - offset;
        if chunk > SEND_CHUNK_SAMPLES {
          chunk := SEND_CHUNK_SAMPLES;
        }
        var e := ChunkEvent(format, pcm[offset..offset + chunk]);
        ghost var left := ChunkEvents(format, Chunks(pcm[offset + chunk..], SEND_CHUNK_SAMPLES));
        FirstChunk(format, pcm, offset, chunk);
        Bytes.Associate(sent, [e], left);
        ChunkTravels(format, pcm[offset..offset + chunk]);
        rc := SendNext(e, before, sent, left);
        if rc != None {
          return rc;
        }
        sent := sent + [e];
        offset := offset + chunk;
      }
      assert pcm[offset..] == [] && events == sent;
    }

    /** One event of several, behind those already sent. */
    method SendNext(e: Event, ghost before: seq<byte>, ghost sent: seq<Event>, ghost left: seq<Event>)
      returns (rc: Option<Error>)
      requires io.Valid() && Writable(e) && Wrote(before, io.fd.outgoing, sent, None)
      modifies io.fd`outgoing, io.fd`script
      ensures io.Valid() && Wrote(before, io.fd.outgoing, if rc == None then sent + [e] else sent + [e] + left, rc)
      ensures Unbroken(old(io.fd.script)) ==>
        Unbroken(io.fd.script) && (AllSendable(sent + [e] + left) ==> rc == None)
    {
      ghost var between := io.fd.outgoing;
      assert (sent + [e] + left)[|sent|] == e;
      rc := Send(e);
      WroteMore(before, between, io.fd.outgoing, sent, [e], rc);
      if rc != None {
        WroteLess(before, io.fd.outgoing, sent + [e], left, rc);
      }
    }

    /** wyoming_transcribe_pcm */
    method TranscribePcm(pcm: seq<Sample>, format: Format, language: Option<Text>)
      returns (ret: Return, ghost heard: seq<Event>)
      requires io.Valid()
      modifies io`pos, io`len, io.buf, io.fd`incoming, io.fd`outgoing, io.fd`script
      ensures io.Valid() && (ret == Refused <==> pcm == [])
      ensures pcm == [] ==> io.fd.outgoing == old(io.fd.outgoing) && io.Pending() == old(io.Pending())
      ensures pcm != [] ==> Performs(TranscribeOp(pcm, format, language), old(io.Pending()), old(io.fd.outgoing),
        heard, ret)
      ensures Smooth(TranscribeOp(pcm, format, language), old(io.fd.script)) ==>
        ret != Failure(IoError) && ret != Failure(NoMemError)
    {
      heard := [];
      if |pcm| == 0 {
        return Refused, heard;
      }
      ret, heard := TranscribeAudio(pcm, format, language, TranscribeOp(pcm, format, language));
    }

    method TranscribeAudio(pcm: seq<Sample>, format: Format, language: Option<Text>, ghost op: Op)
      returns (ret: Return, ghost heard: seq<Event>)
      requires io.Valid() && op == TranscribeOp(pcm, format, language)
      modifies io`pos, io`len, io.buf, io.fd`incoming, io.fd`outgoing, io.fd`script
      ensures io.Valid() && ret != Refused && Performs(op, old(io.Pending()), old(io.fd.outgoing), heard, ret)
      ensures Smooth(op, old(io.fd.script)) ==> ret != Failure(IoError) && ret != Failure(NoMemError)
    {
      hide BuildInfo, InfoOf, Sendable, Yields, Concludes, FailsBehind;
      heard := [];
      var rc := SendTranscribe(pcm, format, language, op);
      if rc != None {
        return Failure(rc.value), heard;
      }
      ret, heard := ReceiveText();
    }

    /** The four kinds of events of a batch request. */
    method SendTranscribe(pcm: seq<Sample>, format: Format, language: Option<Text>, ghost op: Op)
      returns (rc: Option<Error>)
      requires io.Valid() && op == TranscribeOp(pcm, format, language)
      modifies io.fd`outgoing, io.fd`script
      ensures io.Valid()
      ensures var events := Requests(op);
              Wrote(old(io.fd.outgoing), io.fd.outgoing, events, rc)
              && (Unbroken(old(io.fd.script)) ==> Unbroken(io.fd.script) && (AllSendable(events) ==> rc == None))
    {
      ghost var before := io.fd.outgoing;
      var a, b := Event(TRANSCRIBE, Fields(LanguageFields(language)), []), StartEvent(format, false);
      ghost var chunks, stop := ChunkEvents(format, Chunks(pcm, SEND_CHUNK_SAMPLES)), [Bare(AudioStop)];
      ghost var events := [a, b] + (chunks + stop);
      PartsSendable(a, b, chunks, stop);
      LanguageTravels(Protocol.Transcribe, language);
      StartTravels(format, false);
      rc := SendBoth(a, b);
      if rc != None {
        WroteLess(before, io.fd.outgoing, [a, b], chunks + stop, rc);
        return rc;
      }
      ghost var between := io.fd.outgoing;
      rc := SendChunks(pcm, format);
      if rc != None {
        WroteLess(between, io.fd.outgoing, chunks, stop, rc);
        WroteMore(before, between, io.fd.outgoing, [a, b], chunks + stop, rc);
        return rc;
      }
      ghost var later := io.fd.outgoing;
      BareTravels(AudioStop);
      rc := Send(Bare(AudioStop));
      WroteMore(between, later, io.fd.outgoing, chunks, stop, rc);
      WroteMore(before, between, io.fd.outgoing, [a, b], chunks + stop, rc);
    }

    // -------- streaming

    /** wyoming_transcribe_start */
    method TranscribeStart(format: Format, language: Option<Text>) returns (rc: Option<Error>)
      requires io.Valid()
      modifies io.fd`outgoing, io.fd`script
      ensures io.Valid()
      ensures var events := [Event(TRANSCRIBE_START, Fields(LanguageFields(language)), []), StartEvent(format, false)];
              Wrote(old(io.fd.outgoing), io.fd.outgoing, events, rc)
              && (Unbroken(old(io.fd.script)) ==> Unbroken(io.fd.script) && (AllSendable(events) ==> rc == None))
    {
      LanguageTravels(Protocol.TranscribeStart, language);
      StartTravels(format, false);
      var a, b := Event(TRANSCRIBE_START, Fields(LanguageFields(language)), []), StartEvent(format, false);
      assert [a, b][0] == a && [a, b][1] == b;
      rc := SendBoth(a, b);
    }

    /** wyoming_transcribe_chunk */
    method TranscribeChunk(pcm: seq<Sample>, format: Format) returns (ret: Return)
      requires io.Valid() && 2 * |pcm| <= INT_MAX
      modifies io.fd`outgoing, io.fd`script
      ensures io.Valid() && (ret == Refused <==> pcm == []) && (ret.Returned? ==> ret == Returned(Said(None)))
      ensures pcm == [] ==> io.fd.outgoing == old(io.fd.outgoing)
      ensures pcm != [] ==> Wrote(old(io.fd.outgoing), io.fd.outgoing, [ChunkEvent(format, pcm)],
                                  if ret.Failure? then Some(ret.error) else None)
      ensures Unbroken(old(io.fd.script)) ==>
        Unbroken(io.fd.script) && (Sendable(ChunkEvent(format, pcm)) ==> !ret.Failure?)
    {
      if |pcm| == 0 {
        return Refused;
      }
      ChunkTravels(format, pcm);
      var rc := Send(ChunkEvent(format, pcm));
      ret := if rc.Some? then Failure(rc.value) else Returned(Said(None));
    }

    /** wyoming_transcribe_stop: both stop events, then replies up to a transcript that is not partial. */
    method TranscribeStop() returns (ret: Return, ghost heard: seq<Event>)
      requires io.Valid()
      modifies io`pos, io`len, io.buf, io.fd`incoming, io.fd`outgoing, io.fd`script
      ensures io.Valid() && ret != Refused
      ensures var events := [Bare(AudioStop), Bare(Protocol.TranscribeStop)];
              || (ret.Failure? && heard == [] && Wrote(old(io.fd.outgoing), io.fd.outgoing, events, Some(ret.error)))
              || (io.fd.outgoing == old(io.fd.outgoing) + Frames(events)
                  && Concludes(AwaitFinal(None), old(io.Pending()), heard, io.Pending(), ret))
      ensures Unbroken(old(io.fd.script)) && Sendable(Bare(AudioStop)) && Sendable(Bare(Protocol.TranscribeStop)) ==>
        ret != Failure(IoError) && ret != Failure(NoMemError)
    {
      hide BuildInfo, InfoOf, Yields, Concludes, FailsBehind;
      heard := [];
      BareTravels(AudioStop);
      BareTravels(Protocol.TranscribeStop);
      var rc := SendBoth(Bare(AudioStop), Bare(Protocol.TranscribeStop));
      if rc != None {
        return Failure(rc.value), heard;
      }
      ret, heard := ReceiveFinal();
    }

    /** A chunk call for each chunk, up to the first that fails. */
    method TranscribeChunks(chunks: seq<seq<Sample>>, format: Format) returns (rc: Option<Error>)
      requires io.Valid() && forall i :: 0 <= i < |chunks| ==> chunks[i] != [] && 2 * |chunks[i]| <= INT_MAX
      modifies io.fd`outgoing, io.fd`script
      ensures io.Valid() && Wrote(old(io.fd.outgoing), io.fd.outgoing, ChunkEvents(format, chunks), rc)
      ensures Unbroken(old(io.fd.script)) ==>
        Unbroken(io.fd.script) && (AllSendable(ChunkEvents(format, chunks)) ==> rc == None)
    {
      ghost var before := io.fd.outgoing;
      var i := 0;
      rc := None;
      assert chunks[0..] == chunks && chunks[..0] == [] && before + Frames([]) == before;
      while i < |chunks|
        invariant io.Valid() && i <= |chunks| && rc == None
        invariant Wrote(before, io.fd.outgoing, ChunkEvents(format, chunks[..i]), None)
        invariant Unbroken(old(io.fd.script)) ==> Unbroken(io.fd.script)
      {
        rc := NextChunk(chunks, i, format, before);
        if rc != None {
          return rc;
        }
        i := i + 1;
      }
      assert chunks[..i] == chunks;
    }

    /** One of the calls. */
    method NextChunk(chunks: seq<seq<Sample>>, i: nat, format: Format, ghost before: seq<byte>)
      returns (rc: Option<Error>)
      requires io.Valid() && i < |chunks| && chunks[i] != [] && 2 * |chunks[i]| <= INT_MAX
      requires Wrote(before, io.fd.outgoing, ChunkEvents(format, chunks[..i]), None)
      modifies io.fd`outgoing, io.fd`script
      ensures io.Valid()
      ensures Wrote(before, io.fd.outgoing, ChunkEvents(format, if rc == None then chunks[..i + 1] else chunks), rc)
      ensures Unbroken(old(io.fd.script)) ==>
        Unbroken(io.fd.script) && (AllSendable(ChunkEvents(format, chunks)) ==> rc == None)
    {
      ghost var between, sent := io.fd.outgoing, ChunkEvents(format, chunks[..i]);
      ghost var left := ChunkEvents(format, chunks[i + 1..]);
      ChunksAround(format, chunks, i);
      var ret := TranscribeChunk(chunks[i], format);
      rc := if ret.Failure? then Some(ret.error) else None;
      WroteMore(before, between, io.fd.outgoing, sent, [ChunkEvent(format, chunks[i])], rc);
      if rc != None {
        WroteLess(before, io.fd.outgoing, sent + [ChunkEvent(format, chunks[i])], left, rc);
      }
    }

    /** A whole stream as its caller performs it: start, chunk after chunk, stop. Together the three calls are
        one operation. */
    method TranscribeStreamed(chunks: seq<seq<Sample>>, format: Format, language: Option<Text>)
      returns (ret: Return, ghost heard: seq<Event>)
      requires io.Valid() && forall i :: 0 <= i < |chunks| ==> chunks[i] != [] && 2 * |chunks[i]| <= INT_MAX
      modifies io`pos, io`len, io.buf, io.fd`incoming, io.fd`outgoing, io.fd`script
      ensures io.Valid() && ret != Refused
      ensures Performs(StreamOp(chunks, format, language), old(io.Pending()), old(io.fd.outgoing), heard, ret)
      ensures Smooth(StreamOp(chunks, format, language), old(io.fd.script)) ==>
        ret != Failure(IoError) && ret != Failure(NoMemError)
    {
      hide BuildInfo, InfoOf, Sendable, Yields, Concludes, FailsBehind, Requests, Wrote, AllSendable, Frames;
      ghost var op, before := StreamOp(chunks, format, language), io.fd.outgoing;
      ghost var opening := [Event(TRANSCRIBE_START, Fields(LanguageFields(language)), []), StartEvent(format, false)];
      ghost var audio, tail := ChunkEvents(format, chunks), [Bare(AudioStop), Bare(Protocol.TranscribeStop)];
      PartsOfStream(op);
      heard := [];
      var rc := TranscribeStart(format, language);
      if rc != None {
        WroteLess(before, io.fd.outgoing, opening, audio + tail, rc);
        return Failure(rc.value), heard;
      }
      ghost var between := io.fd.outgoing;
      rc := TranscribeChunks(chunks, format);
      if rc != None {
        WroteLess(between, io.fd.outgoing, audio, tail, rc);
        WroteMore(before, between, io.fd.outgoing, opening, audio + tail, rc);
        return Failure(rc.value), heard;
      }
      ghost var later := io.fd.outgoing;
      ret, heard := TranscribeStop();
      StoppedBehind(op, before, between, later, io.fd.outgoing, ret);
    }

    /** The loop that waits for the final transcript and keeps the last text. */
    method ReceiveFinal() returns (ret: Return, ghost heard: seq<Event>)
      requires io.Valid()
      modifies io`pos, io`len, io.buf, io.fd`incoming, io.fd`script
      ensures io.Valid() && Concludes(AwaitFinal(None), old(io.Pending()), heard, io.Pending(), ret)
      ensures Unbroken(old(io.fd.script)) ==> Unbroken(io.fd.script) && ret != Failure(IoError)
      ensures ret != Refused && ret != Failure(NoMemError)
    {
      ghost var stream := io.Pending();
      var lastText: Option<seq<byte>>, result: Option<Return> := None, None;
      heard := [];
      while result.None?
        invariant io.Valid()
          && (Unbroken(old(io.fd.script)) ==> Unbroken(io.fd.script) && result != Some(Failure(IoError)))
        invariant result.None? ==> Yields(stream, heard, io.Pending())
        invariant result.None? ==> Advance(AwaitFinal(None), heard) == Some(AwaitFinal(lastText))
        invariant result.Some? ==> Concludes(AwaitFinal(None), stream, heard, io.Pending(), result.value)
        decreases |io.Pending()|, result.None?
      {
        result, lastText, heard := NextFinal(lastText, AwaitFinal(None), stream, heard);
      }
      ret := result.value;
      ReadingHasMemory(AwaitFinal(None), stream, heard, io.Pending(), ret);
    }

    /** One turn of the loop. */
    method NextFinal(lastText: Option<seq<byte>>, ghost start: Receiver, ghost stream: seq<byte>,
        ghost heard: seq<Event>)
      returns (result: Option<Return>, lastText': Option<seq<byte>>, ghost heard': seq<Event>)
      requires io.Valid() && Yields(stream, heard, io.Pending()) && Advance(start, heard) == Some(AwaitFinal(lastText))
      modifies io`pos, io`len, io.buf, io.fd`incoming, io.fd`script
      ensures io.Valid() && |io.Pending()| <= |old(io.Pending())|
      ensures Unbroken(old(io.fd.script)) ==> Unbroken(io.fd.script) && result != Some(Failure(IoError))
      ensures result.None? ==> Yields(stream, heard', io.Pending()) && |io.Pending()| < |old(io.Pending())|
      ensures result.None? ==> Advance(start, heard') == Some(AwaitFinal(lastText'))
      ensures result.Some? ==> Concludes(start, stream, heard', io.Pending(), result.value)
    {
      hide BuildInfo, InfoOf, Sendable, Yields, OnSpeech, OnText, FailsBehind, Advance;
      var reply := Hear(start, stream, heard);
      if reply.Lost? {
        return Some(Failure(reply.error)), lastText, heard;
      }
      heard' := heard + [reply.event];
      var r;
      r, lastText' := AbsorbFinal(reply.event, lastText);
      result := if r.Some? then Some(Returned(r.value)) else None;
    }

    /** One reply to the end of a stream. */
    method AbsorbFinal(e: Event, lastText: Option<seq<byte>>)
      returns (result: Option<Result>, lastText': Option<seq<byte>>)
      ensures OnFinal(lastText, e) == if result.Some? then Complete(result.value) else More(AwaitFinal(lastText'))
    {
      result, lastText' := None, lastText;
      var kind := KindOf(e.typ);
      if kind == Transcript && e.data.Some? {
        var text := AsText(Field(e, TEXT));
        if text.Some? {
          lastText' := text;
        }
        if Field(e, IS_PARTIAL) != Some(True) {
          result := Some(Said(lastText'));
        }
      } else if kind == ErrorKind {
        result := Some(ProtocolError);
      }
    }
  }

  /** The chunk loop takes its pieces off the front. */
  lemma FirstChunk(f: Format, pcm: seq<Sample>, offset: nat, chunk: nat)
    requires offset < |pcm| && chunk == Least(|pcm| - offset, SEND_CHUNK_SAMPLES)
    ensures ChunkEvents(f, Chunks(pcm[offset..], SEND_CHUNK_SAMPLES))
            == [ChunkEvent(f, pcm[offset..offset + chunk])]
                + ChunkEvents(f, Chunks(pcm[offset + chunk..], SEND_CHUNK_SAMPLES))
  {
    var rest := pcm[offset..];
    assert rest[..chunk] == pcm[offset..offset + chunk] && rest[chunk..] == pcm[offset + chunk..];
    var chunks := Chunks(rest, SEND_CHUNK_SAMPLES);
    if |rest| <= SEND_CHUNK_SAMPLES {
      assert rest[..chunk] == rest && rest[chunk..] == [];
    }
    assert chunks == [rest[..chunk]] + Chunks(rest[chunk..], SEND_CHUNK_SAMPLES);
    assert chunks[1..] == Chunks(rest[chunk..], SEND_CHUNK_SAMPLES);
  }

  lemma {:induction false} ChunkEventsAppend(f: Format, a: seq<seq<Sample>>, b: seq<seq<Sample>>)
    ensures ChunkEvents(f, a + b) == ChunkEvents(f, a) + ChunkEvents(f, b)
    decreases |a|
  {
    if a == [] {
      assert a + b == b;
    } else {
      assert (a + b)[0] == a[0] && (a + b)[1..] == a[1..] + b;
      ChunkEventsAppend(f, a[1..], b);
    }
  }

  /** The chunks before one chunk, the chunk, and those behind it. */
  lemma ChunksAround(f: Format, chunks: seq<seq<Sample>>, i: nat)
    requires i < |chunks|
    ensures var e, left := [ChunkEvent(f, chunks[i])], ChunkEvents(f, chunks[i + 1..]);
            && ChunkEvents(f, chunks[..i + 1]) == ChunkEvents(f, chunks[..i]) + e
            && ChunkEvents(f, chunks) == ChunkEvents(f, chunks[..i]) + e + left
            && (AllSendable(ChunkEvents(f, chunks)) ==> Sendable(e[0]))
  {
    var e, left := [ChunkEvent(f, chunks[i])], ChunkEvents(f, chunks[i + 1..]);
    var one: seq<seq<Sample>> := [chunks[i]];
    assert chunks[..i + 1] == chunks[..i] + one;
    ChunkEventsAppend(f, chunks[..i], one);
    assert one[1..] == [] && ChunkEvents(f, one) == e;
    TakeDrop(chunks, i + 1);
    ChunkEventsAppend(f, chunks[..i + 1], chunks[i + 1..]);
    assert (ChunkEvents(f, chunks[..i]) + e + left)[|ChunkEvents(f, chunks[..i])|] == e[0];
  }

  /** The requests of a stream, call by call. */
  lemma PartsOfStream(op: Op)
    requires op.StreamOp?
    ensures var opening := [Event(TRANSCRIBE_START, Fields(LanguageFields(op.language)), []),
      StartEvent(op.format, false)];
            var audio, tail := ChunkEvents(op.format, op.chunks), [Bare(AudioStop), Bare(Protocol.TranscribeStop)];
            && Requests(op) == opening + (audio + tail)
            && (AllSendable(Requests(op)) ==> AllSendable(opening) && AllSendable(audio)
                                              && Sendable(Bare(AudioStop)) && Sendable(Bare(Protocol.TranscribeStop)))
  {
    hide Sendable, ChunkEvents, StartEvent, LanguageFields;
    var opening := [Event(TRANSCRIBE_START, Fields(LanguageFields(op.language)), []), StartEvent(op.format, false)];
    var audio, tail := ChunkEvents(op.format, op.chunks), [Bare(AudioStop), Bare(Protocol.TranscribeStop)];
    assert Requests(op) == opening + (audio + tail);
    AllSendableParts(opening, audio + tail);
    AllSendableParts(audio, tail);
    assert tail[0] == Bare(AudioStop) && tail[1] == Bare(Protocol.TranscribeStop);
  }

  lemma AllSendableParts(a: seq<Event>, b: seq<Event>)
    ensures AllSendable(a + b) ==> AllSendable(a) && AllSendable(b)
  {
    hide Sendable;
    assert forall i :: 0 <= i < |a| ==> (a + b)[i] == a[i];
    assert forall i :: 0 <= i < |b| ==> (a + b)[|a| + i] == b[i];
  }

  /** What the calls of a stream wrote, when the first two went well. */
  lemma StoppedBehind(op: Op, before: seq<byte>, between: seq<byte>, later: seq<byte>, after: seq<byte>, ret: Return)
    requires op.StreamOp?
    requires var opening := [Event(TRANSCRIBE_START, Fields(LanguageFields(op.language)), []),
      StartEvent(op.format, false)];
             Wrote(before, between, opening, None) && Wrote(between, later, ChunkEvents(op.format, op.chunks), None)
    ensures var tail := [Bare(AudioStop), Bare(Protocol.TranscribeStop)];
            && (after == later + Frames(tail) ==> after == before + Frames(Requests(op)))
            && (ret.Failure? && Wrote(later, after, tail, Some(ret.error)) ==>
                  Wrote(before, after, Requests(op), Some(ret.error)))
  {
    hide Sendable, Frame;
    var opening := [Event(TRANSCRIBE_START, Fields(LanguageFields(op.language)), []), StartEvent(op.format, false)];
    var audio, tail := ChunkEvents(op.format, op.chunks), [Bare(AudioStop), Bare(Protocol.TranscribeStop)];
    assert Requests(op) == opening + (audio + tail);
    if after == later + Frames(tail) {
      WroteMore(between, later, after, audio, tail, None);
      WroteMore(before, between, after, opening, audio + tail, None);
    }
    if ret.Failure? && Wrote(later, after, tail, Some(ret.error)) {
      WroteMore(between, later, after, audio, tail, Some(ret.error));
      WroteMore(before, between, after, opening, audio + tail, Some(ret.error));
    }
  }

  lemma PartsSendable(a: Event, b: Event, chunks: seq<Event>, stop: seq<Event>)
    requires |stop| == 1
    ensures AllSendable([a, b] + (chunks + stop))
      ==> Sendable(a) && Sendable(b) && AllSendable(chunks) && Sendable(stop[0])
  {
    var events := [a, b] + (chunks + stop);
    assert events[0] == a && events[1] == b && events[|chunks| + 2] == stop[0];
    assert forall i :: 0 <= i < |chunks| ==> events[i + 2] == chunks[i];
  }

  // -------- reading an info event

  /** The languages of a voice: an item that is no string leaves its slot empty. */
  method ReadTexts(items: seq<Value>) returns (texts: seq<Option<seq<byte>>>)
    ensures texts == TextsOf(items)
  {
    var slots := new Option<seq<byte>>[|items|](_ => None);
    var li := 0;
    while li < |items|
      invariant li <= |items| && forall k :: 0 <= k < li ==> slots[k] == AsText(Some(items[k]))
      invariant forall k :: li <= k < |items| ==> slots[k] == None
    {
      if items[li].String? {
        slots[li] := Some(items[li].text);
      }
      li := li + 1;
    }
    return slots[..];
  }

  /** The names of a voice's speakers. */
  method ReadNames(items: seq<Value>) returns (names: seq<Option<seq<byte>>>)
    ensures names == NamesOf(items)
  {
    var slots := new Option<seq<byte>>[|items|](_ => None);
    var si := 0;
    while si < |items|
      invariant si <= |items| && forall k :: 0 <= k < si ==> slots[k] == AsText(Get(items[k], NAME))
      invariant forall k :: si <= k < |items| ==> slots[k] == None
    {
      var name := Get(items[si], NAME);
      if name.Some? && name.value.String? {
        slots[si] := Some(name.value.text);
      }
      si := si + 1;
    }
    return slots[..];
  }

  /** The voices of a text-to-speech engine, slot by slot. */
  method ReadVoices(items: seq<Value>) returns (voices: seq<VoiceInfo>)
    ensures voices == VoicesOf(items)
  {
    var slots := new VoiceInfo[|items|](_ => VoiceInfo(None, [], None, []));
    var i := 0;
    while i < |items|
      invariant i <= |items| && forall k :: 0 <= k < i ==> slots[k] == VoiceOf(items[k])
    {
      var v := items[i];
      var languages := ReadTexts(Elements(v, LANGUAGES));
      var speakers := ReadNames(Elements(v, SPEAKERS));
      slots[i] := VoiceInfo(AsText(Get(v, NAME)), languages, AsText(Get(v, DESCRIPTION)), speakers);
      i := i + 1;
    }
    return slots[..];
  }

  /** A model's languages, with the strings moved to the front. */
  method ReadLanguages(items: seq<Value>) returns (languages: seq<Option<seq<byte>>>)
    ensures languages == Packed(items)
  {
    var slots := new Option<seq<byte>>[|items| + 1](_ => None);
    var i, li := 0, 0;
    assert items[..0] == [];
    while i < |items|
      invariant i <= |items| && li <= i && li == |StringsOf(items[..i])|
      invariant slots[..li] == StringsOf(items[..i])
      invariant forall k :: li <= k < slots.Length ==> slots[k] == None
    {
      assert items[..i + 1][..i] == items[..i];
      if items[i].String? {
        slots[li] := Some(items[i].text);
        li := li + 1;
      }
      i := i + 1;
    }
    assert items[..i] == items;
    return slots[..|items|];
  }

  method ReadModels(items: seq<Value>) returns (models: seq<ModelInfo>)
    ensures models == ModelsOf(items)
  {
    var slots := new ModelInfo[|items|](_ => ModelInfo(None, [], None));
    var i := 0;
    while i < |items|
      invariant i <= |items| && forall k :: 0 <= k < i ==> slots[k] == ModelOf(items[k])
    {
      var languages := ReadLanguages(Elements(items[i], LANGUAGES));
      slots[i] := ModelInfo(AsText(Get(items[i], NAME)), languages, AsText(Get(items[i], DESCRIPTION)));
      i := i + 1;
    }
    return slots[..];
  }

  /** The engines of an info event's data. */
  method ReadInfo(data: Option<Value>) returns (info: ServerInfo)
    ensures info == InfoOf(data)
  {
    if data.None? {
      return ServerInfo([], []);
    }
    var tts := ReadTts(Elements(data.value, TTS));
    var asr := ReadAsr(Elements(data.value, ASR));
    return ServerInfo(tts, asr);
  }

  method ReadTts(items: seq<Value>) returns (engines: seq<TtsInfo>)
    ensures engines == AllTts(items)
  {
    var slots := new TtsInfo[|items|](_ => TtsInfo(None, None, []));
    var i := 0;
    while i < |items|
      invariant i <= |items| && forall k :: 0 <= k < i ==> slots[k] == TtsOf(items[k])
    {
      var voices := ReadVoices(Elements(items[i], VOICES));
      slots[i] := TtsInfo(AsText(Get(items[i], NAME)), AsText(Get(items[i], VERSION)), voices);
      i := i + 1;
    }
    return slots[..];
  }

  method ReadAsr(items: seq<Value>) returns (engines: seq<AsrInfo>)
    ensures engines == AllAsr(items)
  {
    var slots := new AsrInfo[|items|](_ => AsrInfo(None, None, []));
    var i := 0;
    while i < |items|
      invariant i <= |items| && forall k :: 0 <= k < i ==> slots[k] == AsrOf(items[k])
    {
      var models := ReadModels(Elements(items[i], MODELS));
      slots[i] := AsrInfo(AsText(Get(items[i], NAME)), AsText(Get(items[i], VERSION)), models);
      i := i + 1;
    }
    return slots[..];
  }
}
