/** One operation at a time: the requests of an operation, served as a whole, give the client the result
    of calling the callback directly. */
module Fidelity {
  import opened Bytes
  import opened Json
  import opened Wire
  import opened Audio
  import opened Protocol
  import opened Catalog
  import opened ServerMachine
  import opened ClientMachine

  lemma ServeFirst<S>(engine: Engine<S>, offer: Offer, st: State, s: S, e: Event, rest: seq<Event>)
    ensures var t := Step(engine, offer, st, s, Got(e)); var u := Serve(engine, offer, t.state, t.s, rest);
            Serve(engine, offer, st, s, [e] + rest) == Service(u.state, u.s, SentEvents(t.actions) + u.replies)
    ensures var t := Step(engine, offer, st, s, Got(e));
            DrainSafe(engine, offer, st, s, [e] + rest)
            == ((st.Draining? ==> e == Bare(TranscribeStop)) && DrainSafe(engine, offer, t.state, t.s, rest))
  {
    assert ([e] + rest)[1..] == rest;
  }

  lemma CollectFirst(r: Receiver, e: Event, rest: seq<Event>)
    ensures var p := Receive(r, e);
            Collected(r, [e] + rest) == if p.Complete? then Some((p.result, rest)) else Collected(p.receiver, rest)
  {
    assert ([e] + rest)[1..] == rest;
  }

  /** SentEvents of the short lists a step makes. */
  lemma SentShort(a: Action, b: Action)
    ensures SentEvents([]) == []
    ensures SentEvents([a]) == if a.Sent? then [a.event] else []
    ensures SentEvents([a, b]) == (if a.Sent? then [a.event] else []) + (if b.Sent? then [b.event] else [])
  {
    assert [a][1..] == [] && [a, b][1..] == [b];
    assert SentEvents([b]) == (if b.Sent? then [b.event] else []) by {
      assert [b][1..] == [];
    }
  }

  // -------- describe

  lemma DescribeFaithful<S>(engine: Engine<S>, offer: Offer, s: S)
    ensures Faithful(engine, offer, DescribeOp, s)
  {
    KindOfType(Describe);
    KindOfType(Info);
    ServeFirst(engine, offer, Top, s, Bare(Describe), []);
    SentShort(Sent(InfoEvent(offer)), Sent(InfoEvent(offer)));
    CollectFirst(AwaitInfo, InfoEvent(offer), []);
    assert [Bare(Describe)] + [] == Requests(DescribeOp);
    assert [InfoEvent(offer)] + [] == [InfoEvent(offer)];
  }

  // -------- synthesize

  lemma {:induction false} CollectChunks(f: Format, got: Format, pcm: seq<Sample>, chunks: seq<seq<Sample>>,
      rest: seq<Event>)
    ensures Collected(AwaitSpeech(true, got, pcm), ChunkEvents(f, chunks) + rest)
            == Collected(AwaitSpeech(true, got, pcm + Flatten(chunks)), rest)
    decreases |chunks|
  {
    if chunks == [] {
      assert ChunkEvents(f, chunks) + rest == rest && pcm + Flatten(chunks) == pcm;
    } else {
      var e := ChunkEvent(f, chunks[0]);
      var more := ChunkEvents(f, chunks[1..]) + rest;
      Associate([e], ChunkEvents(f, chunks[1..]), rest);
      KindOfType(AudioChunk);
      ChunkComesBack(f, chunks[0]);
      CollectFirst(AwaitSpeech(true, got, pcm), e, more);
      CollectChunks(f, got, pcm + chunks[0], chunks[1..], rest);
      Associate(pcm, chunks[0], Flatten(chunks[1..]));
    }
  }

  /** The client rebuilds the speech the server cut into chunks. */
  lemma SpeechComesBack(sp: Speech)
    ensures Collected(AwaitSpeech(false, Format(0, 0, 0), []), SpeechEvents(sp))
      == Some((Spoken(sp.pcm, sp.format), []))
  {
    KindOfType(AudioStart);
    KindOfType(AudioStop);
    FormatComesBack(sp.format, true, Format(0, 0, 0));
    var chunks := Chunks(sp.pcm, AUDIO_CHUNK_SAMPLES);
    ChunksConserve(sp.pcm, AUDIO_CHUNK_SAMPLES);
    var behind := ChunkEvents(sp.format, chunks) + [Bare(AudioStop)];
    assert SpeechEvents(sp) == [StartEvent(sp.format, true)] + behind;
    CollectFirst(AwaitSpeech(false, Format(0, 0, 0), []), StartEvent(sp.format, true), behind);
    CollectChunks(sp.format, sp.format, [], chunks, [Bare(AudioStop)]);
    assert [] + sp.pcm == sp.pcm;
    CollectFirst(AwaitSpeech(true, sp.format, sp.pcm), Bare(AudioStop), []);
    assert [Bare(AudioStop)] + [] == [Bare(AudioStop)];
  }

  lemma SynthesizeFields(text: seq<byte>, voice: Option<seq<byte>>)
    ensures var e := SynthesizeEvent(text, voice);
            AsText(Field(e, TEXT)) == Some(text) && VoiceField(e, SPEAKER) == None
            && VoiceField(e, NAME) == (if voice.Some? then Some(voice.value) else None)
  {
    assert |TEXT| == 4 && |VOICE| == 5 && |NAME| == 4 && |SPEAKER| == 7;
    var members := SynthesizeEvent(text, voice).data.value.members;
    assert members[0] == Member(TEXT, String(text));
    assert Lookup(members, VOICE) == Lookup(members[1..], VOICE);
    if voice.Some? {
      var inner := [Member(NAME, String(voice.value))];
      assert members[1..][0] == Member(VOICE, Object(inner));
      assert inner[1..] == [];
      assert Lookup(inner, NAME) == Some(String(voice.value)) && Lookup(inner, SPEAKER) == None;
    } else {
      assert members[1..] == [];
    }
  }

  lemma SynthesizeFaithful<S>(engine: Engine<S>, offer: Offer, op: Op, s: S)
    requires op.SynthesizeOp? && Succeeds(engine, op, s)
    ensures Faithful(engine, offer, op, s)
  {
    hide BuildInfo, InfoOf, SpeechEvents;
    var e := SynthesizeEvent(op.text, op.voice);
    KindOfType(Synthesize);
    SynthesizeFields(op.text, op.voice);
    var r := engine.tts.value(s, op.text, op.voice, None);
    assert VoiceField(e, NAME) == op.voice;
    assert Step(engine, offer, Top, s, Got(e)) == Turn(Top, r.0, Sends(SpeechEvents(r.1.value)));
    ServeFirst(engine, offer, Top, s, e, []);
    SentEventsOfSends(SpeechEvents(r.1.value));
    assert [e] + [] == Requests(op) && SpeechEvents(r.1.value) + [] == SpeechEvents(r.1.value);
    SpeechComesBack(r.1.value);
  }

  // -------- transcribe

  lemma LanguageComesBack(typ: seq<byte>, language: Option<seq<byte>>)
    ensures AsText(Field(Event(typ, Fields(LanguageFields(language)), []), LANGUAGE)) == Handed(language)
  {
    var fields := LanguageFields(language);
    if Language(language).Some? {
      assert fields[0] == Member(LANGUAGE, String(language.value));
    }
  }

  lemma GatherOne<S>(engine: Engine<S>, offer: Offer, st: State, s: S, f: Format, chunk: seq<Sample>, rest: seq<Event>)
    requires st.Collect?
    ensures var next := st.(pcm := st.pcm + chunk);
            && Serve(engine, offer, st, s, [ChunkEvent(f, chunk)] + rest) == Serve(engine, offer, next, s, rest)
            && DrainSafe(engine, offer, st, s, [ChunkEvent(f, chunk)] + rest) == DrainSafe(engine, offer, next, s, rest)
  {
    var e, next := ChunkEvent(f, chunk), st.(pcm := st.pcm + chunk);
    KindOfType(AudioChunk);
    ChunkComesBack(f, chunk);
    ServeFirst(engine, offer, st, s, e, rest);
    assert Step(engine, offer, st, s, Got(e)) == Turn(next, s, []);
    var u := Serve(engine, offer, next, s, rest);
    assert [] + u.replies == u.replies;
  }

  lemma {:induction false} GatherChunks<S>(engine: Engine<S>, offer: Offer, st: State, s: S, f: Format,
      chunks: seq<seq<Sample>>, rest: seq<Event>)
    requires st.Collect?
    ensures Serve(engine, offer, st, s, ChunkEvents(f, chunks) + rest)
            == Serve(engine, offer, st.(pcm := st.pcm + Flatten(chunks)), s, rest)
    ensures DrainSafe(engine, offer, st, s, ChunkEvents(f, chunks) + rest)
            == DrainSafe(engine, offer, st.(pcm := st.pcm + Flatten(chunks)), s, rest)
    decreases |chunks|
  {
    if chunks == [] {
      assert ChunkEvents(f, chunks) + rest == rest && st.pcm + Flatten(chunks) == st.pcm;
    } else {
      var more := ChunkEvents(f, chunks[1..]) + rest;
      Associate([ChunkEvent(f, chunks[0])], ChunkEvents(f, chunks[1..]), rest);
      Associate(st.pcm, chunks[0], Flatten(chunks[1..]));
      GatherOne(engine, offer, st, s, f, chunks[0], more);
      GatherChunks(engine, offer, st.(pcm := st.pcm + chunks[0]), s, f, chunks[1..], rest);
    }
  }

  /** What an engine said: its text, or nothing when it gave none. */
  predicate Says(answer: Option<Text>, text: Text) {
    answer == Some(text) || (answer == None && text == [])
  }

  /** The end of a batch: the engine's text comes back. */
  lemma BatchEnd<S>(engine: Engine<S>, offer: Offer, st: State, s: S, text: Text)
    requires st.Collect? && st.pcm != [] && engine.asr.Some?
    requires Says(engine.asr.value(s, st.pcm, st.format, st.language).1, text)
    ensures var service := Serve(engine, offer, st, s, [Bare(AudioStop)]);
            service
            == Service(Top, engine.asr.value(s, st.pcm, st.format, st.language).0, [TranscriptEvent(text, false)])
            && Collected(AwaitText, service.replies) == Some((Said(Some(text)), []))
    ensures DrainSafe(engine, offer, st, s, [Bare(AudioStop)])
  {
    hide BuildInfo, InfoOf, SpeechEvents;
    KindOfType(AudioStop);
    KindOfType(Transcript);
    var e := TranscriptEvent(text, false);
    ServeFirst(engine, offer, st, s, Bare(AudioStop), []);
    Nothing([Bare(AudioStop)]);
    SentShort(Sent(e), Sent(e));
    TranscriptComesBack(text, false);
    CollectFirst(AwaitText, e, []);
    Nothing([e]);
  }

  /** The requests of a batch up to its first chunk. */
  lemma BatchOpens<S>(engine: Engine<S>, offer: Offer, op: Op, s: S, behind: seq<Event>)
    requires op.TranscribeOp? && Succeeds(engine, op, s)
    ensures var st := Collect(Handed(op.language), op.format, []);
            var opening := Event(TRANSCRIBE, Fields(LanguageFields(op.language)), []);
            var events := [opening] + ([StartEvent(op.format, false)] + behind);
            && Serve(engine, offer, Top, s, events) == Serve(engine, offer, st, s, behind)
            && DrainSafe(engine, offer, Top, s, events) == DrainSafe(engine, offer, st, s, behind)
  {
    hide BuildInfo, InfoOf, SpeechEvents;
    var opening := Event(TRANSCRIBE, Fields(LanguageFields(op.language)), []);
    var language := Handed(op.language);
    KindOfType(Transcribe);
    KindOfType(AudioStart);
    LanguageComesBack(TRANSCRIBE, op.language);
    FormatComesBack(op.format, false, DEFAULT_FORMAT);
    ServeFirst(engine, offer, Top, s, opening, [StartEvent(op.format, false)] + behind);
    ServeFirst(engine, offer, AwaitBatch(language), s, StartEvent(op.format, false), behind);
    NoReply(Serve(engine, offer, Collect(language, op.format, []), s, behind));
  }

  lemma BatchRequests(op: Op, behind: seq<Event>)
    requires op.TranscribeOp?
    requires behind == ChunkEvents(op.format, Chunks(op.pcm, SEND_CHUNK_SAMPLES)) + [Bare(AudioStop)]
    ensures Requests(op) == [Event(TRANSCRIBE, Fields(LanguageFields(op.language)), [])]
                            + ([StartEvent(op.format, false)] + behind)
  {
  }

  lemma TranscribeFaithful<S>(engine: Engine<S>, offer: Offer, op: Op, s: S)
    requires op.TranscribeOp? && Acceptable(op) && Succeeds(engine, op, s)
    ensures Faithful(engine, offer, op, s)
  {
    hide BuildInfo, InfoOf, SpeechEvents, Step, Receive, TranscriptEvent;
    var chunks := Chunks(op.pcm, SEND_CHUNK_SAMPLES);
    var tail := [Bare(AudioStop)];
    var behind := ChunkEvents(op.format, chunks) + tail;
    var language := Handed(op.language);
    ChunksConserve(op.pcm, SEND_CHUNK_SAMPLES);
    BatchRequests(op, behind);
    BatchOpens(engine, offer, op, s, behind);
    GatherChunks(engine, offer, Collect(language, op.format, []), s, op.format, chunks, tail);
    Nothing(op.pcm);
    var answer := engine.asr.value(s, op.pcm, op.format, language).1;
    BatchEnd(engine, offer, Collect(language, op.format, op.pcm), s,
             match answer case Some(text) => text case None => []);
  }

  // -------- streaming

  /** The client passes over replies that are partial transcripts. */
  lemma {:induction false} PartialsPass(last: Option<seq<byte>>, partials: seq<Event>, text: seq<byte>)
    requires Partials(partials)
    ensures Collected(AwaitFinal(last), partials + [TranscriptEvent(text, false)]) == Some((Said(Some(text)), []))
    decreases |partials|
  {
    KindOfType(Transcript);
    if partials == [] {
      TranscriptComesBack(text, false);
      CollectFirst(AwaitFinal(last), TranscriptEvent(text, false), []);
      Nothing([TranscriptEvent(text, false)]);
    } else {
      assert IsPartial(partials[0]);
      var said :| partials[0] == TranscriptEvent(said, true);
      TranscriptComesBack(said, true);
      var rest := partials[1..] + [TranscriptEvent(text, false)];
      Cons(partials);
      Associate([partials[0]], partials[1..], [TranscriptEvent(text, false)]);
      CollectFirst(AwaitFinal(last), partials[0], rest);
      PartialsPass(Some(said), partials[1..], text);
    }
  }

  lemma ToBytesOfSome(pcm: seq<Sample>)
    requires pcm != []
    ensures ToBytes(pcm) != []
  {
    assert |ToBytes(pcm)| > 0;
  }

  /** The call for a chunk is answered with its text, when it went well and gave some, or not at all. */
  lemma ChunkReplies<S>(engine: Engine<S>, st: State, s: S, pcm: seq<Sample>)
    requires st.Streaming? && engine.process.Some?
    ensures SentEvents(OnStreamChunk(engine, st, s, pcm).actions)
            == PartialReplies(engine, s, st.ctx, st.format, [pcm])
    ensures OnStreamChunk(engine, st, s, pcm).state == st
    ensures OnStreamChunk(engine, st, s, pcm).s == engine.process.value(s, st.ctx, pcm, st.format, false).0
  {
    hide TranscriptEvent;
    var (s', ok, answer) := engine.process.value(s, st.ctx, pcm, st.format, false);
    var call := Processed(st.ctx, pcm);
    var none: seq<seq<Sample>> := [pcm][1..];
    assert none == [] && PartialReplies(engine, s', st.ctx, st.format, none) == [];
    if ok && answer.Some? && answer.value != [] {
      var e := TranscriptEvent(answer.value, true);
      SentShort(call, Sent(e));
      Pair(call, Sent(e));
      Nothing([e]);
    } else {
      SentShort(call, call);
      Nothing([call]);
    }
  }

  /** One chunk of an open stream. */
  lemma FeedOne<S>(engine: Engine<S>, offer: Offer, st: State, s: S, f: Format, pcm: seq<Sample>)
    requires st.Streaming? && engine.process.Some? && pcm != []
    ensures var t := Step(engine, offer, st, s, Got(ChunkEvent(f, pcm)));
            t.state == st && t.s == engine.process.value(s, st.ctx, pcm, st.format, false).0
                && SentEvents(t.actions) == PartialReplies(engine, s, st.ctx, st.format, [pcm])
  {
    hide BuildInfo, InfoOf, SpeechEvents, SentEvents, PartialReplies, OnRequest, OnCollect, OnStreamChunk,
         FinishStream, ToBytes, ToSamples;
    KindOfType(AudioChunk);
    ChunkComesBack(f, pcm);
    ToBytesOfSome(pcm);
    assert Step(engine, offer, st, s, Got(ChunkEvent(f, pcm))) == OnStreamChunk(engine, st, s, pcm);
    ChunkReplies(engine, st, s, pcm);
  }

  /** The partial transcripts of the first chunk and those of the others. */
  lemma PartialsOfFirst<S>(engine: Engine<S>, s: S, ctx: nat, format: Format, chunks: seq<seq<Sample>>)
    requires engine.process.Some? && chunks != []
    ensures var s' := engine.process.value(s, ctx, chunks[0], format, false).0;
            PartialReplies(engine, s, ctx, format, chunks)
            == PartialReplies(engine, s, ctx, format, [chunks[0]])
               + PartialReplies(engine, s', ctx, format, chunks[1..])
  {
    hide TranscriptEvent;
    var (s', ok, answer) := engine.process.value(s, ctx, chunks[0], format, false);
    var none: seq<seq<Sample>> := [chunks[0]][1..];
    assert none == [] && PartialReplies(engine, s', ctx, format, none) == [];
    if answer.Some? {
      Nothing([TranscriptEvent(answer.value, true)]);
    }
    Nothing(PartialReplies(engine, s', ctx, format, chunks[1..]));
  }

  /** All of them are partial transcripts. */
  lemma {:induction false} PartialRepliesArePartial<S>(engine: Engine<S>, s: S, ctx: nat, format: Format,
      chunks: seq<seq<Sample>>)
    requires engine.process.Some?
    ensures Partials(PartialReplies(engine, s, ctx, format, chunks))
    decreases chunks
  {
    if chunks != [] {
      var (s', ok, answer) := engine.process.value(s, ctx, chunks[0], format, false);
      PartialRepliesArePartial(engine, s', ctx, format, chunks[1..]);
      if answer.Some? {
        assert IsPartial(TranscriptEvent(answer.value, true));
      }
    }
  }

  /** The chunks of a stream reach the engine one by one, and exactly the texts of the calls that went well
      go out, in order, as partial transcripts. */
  lemma {:induction false} FeedChunks<S>(engine: Engine<S>, offer: Offer, st: State, s: S, f: Format,
      chunks: seq<seq<Sample>>)
    requires st.Streaming? && engine.process.Some?
    requires forall i :: 0 <= i < |chunks| ==> chunks[i] != []
    ensures Serve(engine, offer, st, s, ChunkEvents(f, chunks))
            == Service(st, Fed(engine, s, st.ctx, st.format, chunks),
                       PartialReplies(engine, s, st.ctx, st.format, chunks))
    decreases |chunks|
  {
    hide Step, ChunkEvent, TranscriptEvent;
    if chunks == [] {
      assert Serve(engine, offer, st, s, ChunkEvents(f, chunks)) == Service(st, s, []);
    } else {
      var e := ChunkEvent(f, chunks[0]);
      FeedOne(engine, offer, st, s, f, chunks[0]);
      ServeFirst(engine, offer, st, s, e, ChunkEvents(f, chunks[1..]));
      FeedChunks(engine, offer, st, Step(engine, offer, st, s, Got(e)).s, f, chunks[1..]);
      PartialsOfFirst(engine, s, st.ctx, st.format, chunks);
    }
  }

  lemma {:induction false} FeedIsDrainSafe<S>(engine: Engine<S>, offer: Offer, st: State, s: S, f: Format,
      chunks: seq<seq<Sample>>, rest: seq<Event>)
    requires st.Streaming? && engine.process.Some?
    requires forall i :: 0 <= i < |chunks| ==> chunks[i] != []
    requires DrainSafe(engine, offer, st, Fed(engine, s, st.ctx, st.format, chunks), rest)
    ensures DrainSafe(engine, offer, st, s, ChunkEvents(f, chunks) + rest)
    decreases |chunks|
  {
    if chunks == [] {
      assert ChunkEvents(f, chunks) + rest == rest;
    } else {
      var e := ChunkEvent(f, chunks[0]);
      var more := ChunkEvents(f, chunks[1..]) + rest;
      assert ChunkEvents(f, chunks) + rest == [e] + more;
      FeedOne(engine, offer, st, s, f, chunks[0]);
      ServeFirst(engine, offer, st, s, e, more);
      FeedIsDrainSafe(engine, offer, st, Step(engine, offer, st, s, Got(e)).s, f, chunks[1..], rest);
    }
  }

  /** The transcribe-stop that is drained. */
  lemma DrainedStop<S>(engine: Engine<S>, offer: Offer, ctx: nat, s: S)
    ensures var last := [Bare(TranscribeStop)];
            && Serve(engine, offer, Draining(ctx), s, last)
               == Service(Top, if engine.destroy.Some? then engine.destroy.value(s, ctx) else s, [])
            && DrainSafe(engine, offer, Draining(ctx), s, last)
  {
    hide BuildInfo, InfoOf, SpeechEvents;
    Nothing([Bare(TranscribeStop)]);
    ServeFirst(engine, offer, Draining(ctx), s, Bare(TranscribeStop), []);
    SentShort(Destroyed(ctx), Destroyed(ctx));
  }

  /** The end of a stream: final call, final transcript, the drained transcribe-stop, the destroy. */
  lemma StreamEnd<S>(engine: Engine<S>, offer: Offer, st: State, s: S, text: Text)
    requires st.Streaming? && engine.process.Some?
    requires Says(engine.process.value(s, st.ctx, [], st.format, true).2, text)
    ensures var s' := engine.process.value(s, st.ctx, [], st.format, true).0;
            Serve(engine, offer, st, s, [Bare(AudioStop), Bare(TranscribeStop)])
            == Service(Top, if engine.destroy.Some? then engine.destroy.value(s', st.ctx) else s',
                       [TranscriptEvent(text, false)])
    ensures DrainSafe(engine, offer, st, s, [Bare(AudioStop), Bare(TranscribeStop)])
  {
    hide BuildInfo, InfoOf, SpeechEvents;
    KindOfType(AudioStop);
    var r := engine.process.value(s, st.ctx, [], st.format, true);
    var e := TranscriptEvent(text, false);
    var last := [Bare(TranscribeStop)];
    Pair(Bare(AudioStop), Bare(TranscribeStop));
    ServeFirst(engine, offer, st, s, Bare(AudioStop), last);
    SentShort(Finished(st.ctx), Sent(e));
    assert Step(engine, offer, st, s, Got(Bare(AudioStop))) == FinishStream(engine, st, s);
    DrainedStop(engine, offer, st.ctx, r.0);
    Nothing([e]);
  }

  /** The audio-start of a stream creates it. */
  lemma StreamCreated<S>(engine: Engine<S>, offer: Offer, op: Op, s: S, behind: seq<Event>)
    requires op.StreamOp? && Succeeds(engine, op, s)
    ensures var created := engine.create.value(s, op.format, Handed(op.language));
            var st, st' := AwaitStream(Handed(op.language)), Streaming(created.1, op.format);
            var events := [StartEvent(op.format, false)] + behind;
            && Serve(engine, offer, st, s, events) == Serve(engine, offer, st', created.0, behind)
            && DrainSafe(engine, offer, st, s, events) == DrainSafe(engine, offer, st', created.0, behind)
  {
    hide BuildInfo, InfoOf, SpeechEvents, Direct;
    var language := Handed(op.language);
    var created := engine.create.value(s, op.format, language);
    KindOfType(AudioStart);
    FormatComesBack(op.format, false, DEFAULT_FORMAT);
    ServeFirst(engine, offer, AwaitStream(language), s, StartEvent(op.format, false), behind);
    SentShort(Created(created.1), Created(created.1));
    NoReply(Serve(engine, offer, Streaming(created.1, op.format), created.0, behind));
  }

  /** The requests of a stream up to its first chunk. */
  lemma StreamOpens<S>(engine: Engine<S>, offer: Offer, op: Op, s: S, behind: seq<Event>)
    requires op.StreamOp? && Succeeds(engine, op, s)
    ensures var created := engine.create.value(s, op.format, Handed(op.language));
            var st := Streaming(created.1, op.format);
            var opening := Event(TRANSCRIBE_START, Fields(LanguageFields(op.language)), []);
            var events := [opening] + ([StartEvent(op.format, false)] + behind);
            && Serve(engine, offer, Top, s, events) == Serve(engine, offer, st, created.0, behind)
            && DrainSafe(engine, offer, Top, s, events) == DrainSafe(engine, offer, st, created.0, behind)
  {
    hide BuildInfo, InfoOf, SpeechEvents, Direct, Conclusion, FinishStream, OnStreamChunk, StartEvent,
         OnCollect, OnSynthesize;
    var opening := Event(TRANSCRIBE_START, Fields(LanguageFields(op.language)), []);
    var events := [StartEvent(op.format, false)] + behind;
    KindOfType(TranscribeStart);
    LanguageComesBack(TRANSCRIBE_START, op.language);
    ServeFirst(engine, offer, Top, s, opening, events);
    NoReply(Serve(engine, offer, AwaitStream(Handed(op.language)), s, events));
    StreamCreated(engine, offer, op, s, behind);
  }

  lemma NoReply<S>(u: Service<S>)
    ensures Service(u.state, u.s, [] + u.replies) == u
  {
  }

  lemma StreamFaithful<S>(engine: Engine<S>, offer: Offer, op: Op, s: S)
    requires op.StreamOp? && Acceptable(op) && Succeeds(engine, op, s)
    ensures Faithful(engine, offer, op, s)
  {
    hide BuildInfo, InfoOf, SpeechEvents, Step, Receive, TranscriptEvent, PartialReplies;
    var created := engine.create.value(s, op.format, Handed(op.language));
    var behind := ChunkEvents(op.format, op.chunks) + [Bare(AudioStop), Bare(TranscribeStop)];
    StreamRequests(op, behind);
    StreamOpens(engine, offer, op, s, behind);
    var fed := Fed(engine, created.0, created.1, op.format, op.chunks);
    var answer := engine.process.value(fed, created.1, [], op.format, true).2;
    StreamBody(engine, offer, op, Streaming(created.1, op.format), created.0,
               match answer case Some(text) => text case None => []);
  }

  lemma StreamRequests(op: Op, behind: seq<Event>)
    requires op.StreamOp? && behind == ChunkEvents(op.format, op.chunks) + [Bare(AudioStop), Bare(TranscribeStop)]
    ensures Requests(op) == [Event(TRANSCRIBE_START, Fields(LanguageFields(op.language)), [])]
                            + ([StartEvent(op.format, false)] + behind)
  {
  }

  /** From the first chunk to the end. */
  lemma StreamBody<S>(engine: Engine<S>, offer: Offer, op: Op, st: State, s: S, text: Text)
    requires op.StreamOp? && Acceptable(op) && st.Streaming? && st.format == op.format && engine.process.Some?
    requires var fed := Fed(engine, s, st.ctx, op.format, op.chunks);
             Says(engine.process.value(fed, st.ctx, [], op.format, true).2, text)
    ensures var fed := Fed(engine, s, st.ctx, op.format, op.chunks);
            var s' := engine.process.value(fed, st.ctx, [], op.format, true).0;
            var events := ChunkEvents(op.format, op.chunks) + [Bare(AudioStop), Bare(TranscribeStop)];
            var replies := PartialReplies(engine, s, st.ctx, op.format, op.chunks) + [TranscriptEvent(text, false)];
            && Serve(engine, offer, st, s, events)
               == Service(Top, if engine.destroy.Some? then engine.destroy.value(s', st.ctx) else s', replies)
            && Collected(AwaitFinal(None), replies) == Some((Said(Some(text)), []))
            && DrainSafe(engine, offer, st, s, events)
  {
    hide Step, TranscriptEvent, DrainSafe, PartialReplies;
    var tail := [Bare(AudioStop), Bare(TranscribeStop)];
    var fed := Fed(engine, s, st.ctx, op.format, op.chunks);
    ServeAppend(engine, offer, st, s, ChunkEvents(op.format, op.chunks), tail);
    FeedChunks(engine, offer, st, s, op.format, op.chunks);
    StreamEnd(engine, offer, st, fed, text);
    PartialRepliesArePartial(engine, s, st.ctx, op.format, op.chunks);
    PartialsPass(None, PartialReplies(engine, s, st.ctx, op.format, op.chunks), text);
    FeedIsDrainSafe(engine, offer, st, s, op.format, op.chunks, tail);
  }

  // -------- every operation

  lemma EveryOpIsFaithful<S>(engine: Engine<S>, offer: Offer, op: Op, s: S)
    requires Acceptable(op) && Succeeds(engine, op, s)
    ensures Faithful(engine, offer, op, s)
  {
    match op
    case DescribeOp => DescribeFaithful(engine, offer, s);
    case SynthesizeOp(_, _) => SynthesizeFaithful(engine, offer, op, s);
    case TranscribeOp(_, _, _) => TranscribeFaithful(engine, offer, op, s);
    case StreamOp(_, _, _) => StreamFaithful(engine, offer, op, s);
  }

  // -------- the calls, spelled out

  /** A language goes out, and reaches the callback, exactly as the caller gave it; none and an empty one do not. */
  lemma LanguageIsHandedOn(op: Op)
    requires op.TranscribeOp? || op.StreamOp?
    ensures Field(Requests(op)[0], Ascii("language"))
            == match op.language case Some(l) => if |l| > 0 then Some(String(l)) else None case None => None
  {
    LanguageComesBack(Requests(op)[0].typ, op.language);
  }

  /** The arguments and the text of a batch: what the callback says when it is given them is what the server
      replies and what the client returns. */
  lemma BatchCall<S>(engine: Engine<S>, offer: Offer, op: Op, s: S, language: Option<seq<byte>>, text: Text)
    requires op.TranscribeOp? && Acceptable(op) && engine.asr.Some?
    requires match op.language
             case Some(l) => if |l| > 0 then language == Some(l) else language == None
             case None => language == None
    requires match engine.asr.value(s, op.pcm, op.format, language).1
             case Some(t) => text == t
             case None => text == []
    ensures Direct(engine, offer, op, s) == (engine.asr.value(s, op.pcm, op.format, language).0, Said(Some(text)))
    ensures Serve(engine, offer, Top, s, Requests(op))
            == Service(Top, engine.asr.value(s, op.pcm, op.format, language).0, [TranscriptEvent(text, false)])
  {
    hide Step, Serve, Requests, TranscriptEvent, BuildInfo, InfoOf, SpeechEvents;
    EveryOpIsFaithful(engine, offer, op, s);
  }

  /** The same for a stream, with its partial transcripts. */
  lemma StreamCalls<S>(engine: Engine<S>, offer: Offer, op: Op, s: S, language: Option<seq<byte>>, text: Text)
    requires op.StreamOp? && Acceptable(op) && engine.create.Some? && engine.process.Some?
    requires match op.language
             case Some(l) => if |l| > 0 then language == Some(l) else language == None
             case None => language == None
    requires engine.create.value(s, op.format, language).1 != 0
    requires var created := engine.create.value(s, op.format, language);
             var fed := Fed(engine, created.0, created.1, op.format, op.chunks);
             match engine.process.value(fed, created.1, [], op.format, true).2
             case Some(t) => text == t
             case None => text == []
    ensures Direct(engine, offer, op, s).1 == Said(Some(text))
    ensures var created := engine.create.value(s, op.format, language);
            Serve(engine, offer, Top, s, Requests(op)).replies
            == PartialReplies(engine, created.0, created.1, op.format, op.chunks) + [TranscriptEvent(text, false)]
  {
    hide Step, Serve, Requests, TranscriptEvent, BuildInfo, InfoOf, SpeechEvents;
    EveryOpIsFaithful(engine, offer, op, s);
  }
}
