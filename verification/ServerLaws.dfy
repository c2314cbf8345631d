/** What a server does with the events of any client, the names of events and fields and the defaults written
    out: requests with arguments, requests that are ignored, batches and streams with foreign events in between. */
module ServerLaws {
  import opened Bytes
  import opened JsonNumber
  import opened Json
  import opened Wire
  import opened Audio
  import opened Protocol
  import opened Catalog
  import opened ServerMachine
  import opened ClientMachine
  import opened Fidelity

  // -------- fields

  /** `t` is the string under a name, None when there is none. */
  predicate Holds(members: seq<Member>, name: string, t: Option<seq<byte>>) {
    match Lookup(members, Ascii(name))
    case Some(String(x)) => t == Some(x)
    case _ => t == None
  }

  predicate Names(e: Event, name: string, t: Option<seq<byte>>) {
    match e.data
    case Some(Object(members)) => Holds(members, name, t)
    case _ => t == None
  }

  /** `n` is the number under a name, without its fraction, and `otherwise` when there is none. */
  predicate Counts(e: Event, name: string, n: int, otherwise: int) {
    match e.data
    case Some(Object(members)) =>
      (match Lookup(members, Ascii(name))
       case Some(Number(d)) => IsCast(n, d)
       case _ => n == otherwise)
    case _ => n == otherwise
  }

  /** `f` is the format an audio-start gives, field by field, over 16 kHz, two bytes, one channel. */
  predicate Announces(e: Event, f: Format) {
    && e.typ == Ascii("audio-start")
    && Counts(e, "rate", f.rate, 16000) && Counts(e, "width", f.width, 2) && Counts(e, "channels", f.channels, 1)
  }

  lemma AnnouncedFormat(e: Event, f: Format)
    requires Announces(e, f)
    ensures KindOf(e.typ) == AudioStart && FormatOf(e, DEFAULT_FORMAT) == f
  {
    KindOfType(AudioStart);
    CountedInt(e, "rate", f.rate, 16000);
    CountedInt(e, "width", f.width, 2);
    CountedInt(e, "channels", f.channels, 1);
  }

  lemma CountedInt(e: Event, name: string, n: Int32, otherwise: Int32)
    requires Counts(e, name, n, otherwise)
    ensures AsInt(Field(e, Ascii(name)), otherwise) == n
  {
    hide Saturate, IsCast;
    match Field(e, Ascii(name))
    case Some(Number(d)) => SaturateIsCast(n, d);
    case _ =>
  }

  // -------- requests at the top of the loop

  lemma DescribeIsAnswered<S>(engine: Engine<S>, offer: Offer, s: S, e: Event)
    requires e.typ == Ascii("describe")
    ensures Step(engine, offer, Top, s, Got(e))
            == Turn(Top, s, [Sent(Event(Ascii("info"), Some(BuildInfo(offer)), []))])
  {
    KindOfType(Describe);
  }

  /** The voice and the speaker a synthesize asks for: strings in its voice object. */
  predicate AsksFor(e: Event, voice: Option<seq<byte>>, speaker: Option<seq<byte>>)
    requires e.data.Some? && e.data.value.Object?
  {
    match Lookup(e.data.value.members, Ascii("voice"))
    case Some(Object(members)) => Holds(members, "name", voice) && Holds(members, "speaker", speaker)
    case _ => voice == None && speaker == None
  }

  /** The engine gets the text, the voice and the speaker; what it says is sent, and nothing when it fails. */
  lemma SynthesizeCall<S>(engine: Engine<S>, offer: Offer, s: S, e: Event, text: seq<byte>, voice: Option<seq<byte>>,
      speaker: Option<seq<byte>>)
    requires e.typ == Ascii("synthesize") && engine.tts.Some?
    requires e.data.Some? && e.data.value.Object? && Names(e, "text", Some(text)) && AsksFor(e, voice, speaker)
    ensures var r := engine.tts.value(s, text, voice, speaker);
            Step(engine, offer, Top, s, Got(e))
            == Turn(Top, r.0, match r.1 case Some(speech) => Sends(SpeechEvents(speech)) case None => [])
  {
    hide SpeechEvents;
    KindOfType(Synthesize);
    assert AsText(Field(e, TEXT)) == Some(text);
    assert VoiceField(e, NAME) == voice && VoiceField(e, SPEAKER) == speaker;
    assert Step(engine, offer, Top, s, Got(e)) == OnSynthesize(engine, s, e);
  }

  /** Requests without an engine, a synthesize without a text, and all other events. */
  predicate Idle<S>(engine: Engine<S>, e: Event) {
    if e.typ == Ascii("synthesize") then engine.tts.None? || Names(e, "text", None)
    else if e.typ == Ascii("transcribe") then engine.asr.None?
    else if e.typ == Ascii("transcribe-start") then engine.create.None? || engine.process.None?
    else e.typ != Ascii("describe")
  }

  lemma IdleIsIgnored<S>(engine: Engine<S>, offer: Offer, s: S, e: Event)
    requires Idle(engine, e)
    ensures Step(engine, offer, Top, s, Got(e)) == Turn(Top, s, [])
  {
    KindOfType(Synthesize);
    KindOfType(Transcribe);
    KindOfType(TranscribeStart);
  }

  /** The samples from `from` on, `count` of them or all that are left. */
  function Piece(pcm: seq<Sample>, from: nat, count: nat): seq<Sample>
    requires from <= |pcm|
  {
    pcm[from..if from + count < |pcm| then from + count else |pcm|]
  }

  predicate IsPiece(e: Event, f: Format, pcm: seq<Sample>, from: nat, count: nat) {
    from < |pcm| && e == ChunkEvent(f, Piece(pcm, from, count))
  }

  /** The speech that is sent: a stamped audio-start, ceil(N / 4096) chunks in order, 4096 samples each but for the
      last, and an audio-stop. */
  lemma SpeechShape(sp: Speech)
    ensures var events, n := SpeechEvents(sp), (|sp.pcm| + 4095) / 4096;
            && |events| == n + 2
            && events[0] == StartEvent(sp.format, true) && events[n + 1] == Event(Ascii("audio-stop"), None, [])
            && forall i :: 0 <= i < n ==> IsPiece(events[i + 1], sp.format, sp.pcm, 4096 * i, 4096)
  {
    hide ChunkEvent, StartEvent, Chunks, ChunkEvents;
    var chunks := Chunks(sp.pcm, AUDIO_CHUNK_SAMPLES);
    ChunkCount(sp.pcm, 4096);
    ChunkEventsByIndex(sp.format, chunks);
    PiecesByIndex(sp.format, sp.pcm, 4096);
  }

  lemma PiecesByIndex(f: Format, pcm: seq<Sample>, k: nat)
    requires k > 0
    ensures forall i :: 0 <= i < |Chunks(pcm, k)| ==> IsPiece(ChunkEvent(f, Chunks(pcm, k)[i]), f, pcm, k * i, k)
  {
    hide ChunkEvent, Chunks;
    forall i | 0 <= i < |Chunks(pcm, k)| ensures IsPiece(ChunkEvent(f, Chunks(pcm, k)[i]), f, pcm, k * i, k) {
      ChunkAt(pcm, k, i);
    }
  }

  lemma {:induction false} ChunkEventsByIndex(f: Format, chunks: seq<seq<Sample>>)
    ensures |ChunkEvents(f, chunks)| == |chunks|
    ensures forall i :: 0 <= i < |chunks| ==> ChunkEvents(f, chunks)[i] == ChunkEvent(f, chunks[i])
    decreases |chunks|
  {
    hide ChunkEvent;
    if chunks != [] {
      ChunkEventsByIndex(f, chunks[1..]);
    }
  }

  /** What is left of each state when the server is stopped or a read fails: a request is dropped, a stream is
      finished and destroyed, and the connection ends at the top of the loop or where an audio-start was missing.
      The running flag is tested at the top and while audio is read, and nowhere else. */
  lemma CutOff<S>(engine: Engine<S>, offer: Offer, s: S, cut: Input, language: Option<seq<byte>>, f: Format,
      pcm: seq<Sample>, ctx: nat)
    requires !cut.Got? && engine.process.Some?
    ensures Step(engine, offer, Top, s, cut) == Turn(Closed, s, [])
    ensures var st := AwaitBatch(language);
            Step(engine, offer, st, s, cut) == Turn(if cut == Stopped then st else Closed, s, [])
    ensures var st := AwaitStream(language);
            Step(engine, offer, st, s, cut) == Turn(if cut == Stopped then st else Closed, s, [])
    ensures Step(engine, offer, Collect(language, f, pcm), s, cut) == Turn(Top, s, [])
    ensures cut == Stopped ==> Step(engine, offer, Draining(ctx), s, cut) == Turn(Draining(ctx), s, [])
    ensures cut != Stopped ==>
      Step(engine, offer, Draining(ctx), s, cut)
      == match engine.destroy case Some(d) => Turn(Top, d(s, ctx), [Destroyed(ctx)]) case None => Turn(Top, s, [])
    ensures var r := engine.process.value(s, ctx, [], f, true);
            var e := TranscriptEvent(match r.2 case Some(t) => t case None => [], false);
            Step(engine, offer, Streaming(ctx, f), s, cut)
            == match engine.destroy
               case Some(d) => Turn(Top, d(r.0, ctx), [Finished(ctx), Sent(e)] + [Destroyed(ctx)])
               case None => Turn(Top, r.0, [Finished(ctx), Sent(e)])
  {
    hide TranscriptEvent, OnRequest;
  }

  // -------- batches

  /** The samples of the audio chunks among the events. */
  function Heard(events: seq<Event>): seq<Sample> {
    if events == [] then []
    else (if events[0].typ == Ascii("audio-chunk") then ToSamples(events[0].payload) else []) + Heard(events[1..])
  }

  predicate NoneIs(events: seq<Event>, typ: string) {
    forall i :: 0 <= i < |events| ==> events[i].typ != Ascii(typ)
  }

  lemma {:induction false} CollectMiddle<S>(engine: Engine<S>, offer: Offer, st: State, s: S, middle: seq<Event>)
    requires st.Collect? && NoneIs(middle, "audio-stop")
    ensures Serve(engine, offer, st, s, middle) == Service(st.(pcm := st.pcm + Heard(middle)), s, [])
    decreases |middle|
  {
    hide OnRequest, OnStreaming, ToSamples;
    if middle == [] {
      Nothing(st.pcm);
    } else {
      var e := middle[0];
      var next := if e.typ == Ascii("audio-chunk") then st.(pcm := st.pcm + ToSamples(e.payload)) else st;
      KindOfType(AudioChunk);
      KindOfType(AudioStop);
      assert Step(engine, offer, st, s, Got(e)) == Turn(next, s, []);
      CollectMiddle(engine, offer, next, s, middle[1..]);
      Associate(st.pcm, ToSamples(e.payload), Heard(middle[1..]));
      Nothing(Heard(middle[1..]));
    }
  }

  /** The stop of a batch: with samples the engine is called and its text sent, without any nothing happens. */
  lemma CollectStop<S>(engine: Engine<S>, offer: Offer, st: State, s: S, stop: Event)
    requires st.Collect? && stop.typ == Ascii("audio-stop") && engine.asr.Some?
    ensures Serve(engine, offer, st, s, [stop])
            == if st.pcm == [] then Service(Top, s, [])
               else var r := engine.asr.value(s, st.pcm, st.format, st.language);
                 Service(Top, r.0, [TranscriptEvent(match r.1 case Some(t) => t case None => [], false)])
  {
    hide OnRequest, OnStreaming, TranscriptEvent;
    KindOfType(AudioStop);
    assert [stop][1..] == [];
    if st.pcm != [] {
      var r := engine.asr.value(s, st.pcm, st.format, st.language);
      var e := TranscriptEvent(match r.1 case Some(t) => t case None => [], false);
      SentShort(Sent(e), Sent(e));
      Nothing([e]);
    }
  }

  /** A batch of any client: the language, the format and all samples between start and stop reach the engine,
      whatever else arrives in between, and its text comes back. */
  lemma AnyBatch<S>(engine: Engine<S>, offer: Offer, s: S, opening: Event, start: Event, middle: seq<Event>,
      stop: Event, language: Option<seq<byte>>, f: Format)
    requires opening.typ == Ascii("transcribe") && Names(opening, "language", language) && engine.asr.Some?
    requires Announces(start, f) && NoneIs(middle, "audio-stop") && stop.typ == Ascii("audio-stop")
    ensures Serve(engine, offer, Top, s, [opening] + ([start] + (middle + [stop])))
            == if Heard(middle) == [] then Service(Top, s, [])
               else var r := engine.asr.value(s, Heard(middle), f, language);
                 Service(Top, r.0, [TranscriptEvent(match r.1 case Some(t) => t case None => [], false)])
  {
    hide OnStreaming, OnSynthesize, TranscriptEvent, Heard, FormatOf, Serve;
    var behind := middle + [stop];
    KindOfType(Transcribe);
    AnnouncedFormat(start, f);
    ServeFirst(engine, offer, Top, s, opening, [start] + behind);
    NoReply(Serve(engine, offer, AwaitBatch(language), s, [start] + behind));
    ServeFirst(engine, offer, AwaitBatch(language), s, start, behind);
    BatchBody(engine, offer, Collect(language, f, []), s, middle, stop);
    SentNothing();
  }

  lemma SentNothing()
    ensures SentEvents([]) == []
  {
  }

  lemma BatchBody<S>(engine: Engine<S>, offer: Offer, st: State, s: S, middle: seq<Event>, stop: Event)
    requires st.Collect? && st.pcm == [] && engine.asr.Some?
    requires NoneIs(middle, "audio-stop") && stop.typ == Ascii("audio-stop")
    ensures Serve(engine, offer, st, s, middle + [stop])
            == if Heard(middle) == [] then Service(Top, s, [])
               else var r := engine.asr.value(s, Heard(middle), st.format, st.language);
                 Service(Top, r.0, [TranscriptEvent(match r.1 case Some(t) => t case None => [], false)])
  {
    hide Step, TranscriptEvent, Heard, Serve;
    ServeAppend(engine, offer, st, s, middle, [stop]);
    CollectMiddle(engine, offer, st, s, middle);
    Nothing(Heard(middle));
    CollectStop(engine, offer, st.(pcm := Heard(middle)), s, stop);
    NoReply(Serve(engine, offer, st.(pcm := Heard(middle)), s, [stop]));
  }

  /** Anything but an audio-start behind the opening ends the connection. */
  lemma MissingStart<S>(engine: Engine<S>, offer: Offer, s: S, opening: Event, other: Event, rest: seq<Event>)
    requires || (opening.typ == Ascii("transcribe") && engine.asr.Some?)
             || (opening.typ == Ascii("transcribe-start") && engine.create.Some? && engine.process.Some?)
    requires other.typ != Ascii("audio-start")
    ensures Serve(engine, offer, Top, s, [opening] + ([other] + rest)) == Service(Closed, s, [])
  {
    hide OnStreaming, OnSynthesize, OnCollect, OnStreamStart, Serve, SentEvents, BuildInfo, InfoEvent, SpeechEvents,
         FormatOf;
    KindOfType(Transcribe);
    KindOfType(TranscribeStart);
    KindOfType(AudioStart);
    ServeFirst(engine, offer, Top, s, opening, [other] + rest);
    var st := Step(engine, offer, Top, s, Got(opening)).state;
    ServeFirst(engine, offer, st, s, other, rest);
    SentNothing();
    ClosedIsSilent(engine, offer, s, rest);
  }

  lemma {:induction false} ClosedIsSilent<S>(engine: Engine<S>, offer: Offer, s: S, events: seq<Event>)
    ensures Serve(engine, offer, Closed, s, events) == Service(Closed, s, [])
    decreases |events|
  {
    if events != [] {
      ClosedIsSilent(engine, offer, s, events[1..]);
    }
  }

  // -------- streams

  /** The samples of each audio chunk with a payload. */
  function Blocks(events: seq<Event>): seq<seq<Sample>> {
    if events == [] then []
    else if events[0].typ == Ascii("audio-chunk") && |events[0].payload| > 0 then
      [ToSamples(events[0].payload)] + Blocks(events[1..])
    else Blocks(events[1..])
  }

  lemma {:induction false} FeedMiddle<S>(engine: Engine<S>, offer: Offer, st: State, s: S, middle: seq<Event>)
    requires st.Streaming? && engine.process.Some? && NoneIs(middle, "audio-stop") && NoneIs(middle, "transcribe-stop")
    ensures Serve(engine, offer, st, s, middle)
            == Service(st, Fed(engine, s, st.ctx, st.format, Blocks(middle)),
                       PartialReplies(engine, s, st.ctx, st.format, Blocks(middle)))
    decreases |middle|
  {
    hide OnRequest, OnCollect, OnStreamChunk, FinishStream, ToSamples, TranscriptEvent;
    if middle != [] {
      var e := middle[0];
      KindOfType(AudioChunk);
      KindOfType(AudioStop);
      KindOfType(TranscribeStop);
      if e.typ == Ascii("audio-chunk") && |e.payload| > 0 {
        var pcm, chunks := ToSamples(e.payload), Blocks(middle);
        assert Step(engine, offer, st, s, Got(e)) == OnStreamChunk(engine, st, s, pcm);
        ChunkReplies(engine, st, s, pcm);
        FeedMiddle(engine, offer, st, engine.process.value(s, st.ctx, pcm, st.format, false).0, middle[1..]);
        assert chunks[0] == pcm && chunks[1..] == Blocks(middle[1..]);
        PartialsOfFirst(engine, s, st.ctx, st.format, chunks);
      } else {
        assert Step(engine, offer, st, s, Got(e)) == Turn(st, s, []);
        FeedMiddle(engine, offer, st, s, middle[1..]);
        NoReply(Serve(engine, offer, st, s, middle[1..]));
      }
    }
  }

  /** The end of a stream, whichever of the two stops comes first, and the event that is drained behind it. */
  lemma FinishAndDrain<S>(engine: Engine<S>, offer: Offer, st: State, s: S, stop: Event, drained: Event)
    requires st.Streaming? && engine.process.Some?
    requires stop.typ == Ascii("audio-stop") || stop.typ == Ascii("transcribe-stop")
    ensures var r := engine.process.value(s, st.ctx, [], st.format, true);
            Serve(engine, offer, st, s, [stop] + [drained])
            == Service(Top, match engine.destroy case Some(d) => d(r.0, st.ctx) case None => r.0,
                       [TranscriptEvent(match r.2 case Some(t) => t case None => [], false)])
  {
    hide OnRequest, OnCollect, OnStreamChunk, TranscriptEvent, Serve;
    KindOfType(AudioStop);
    KindOfType(TranscribeStop);
    var r := engine.process.value(s, st.ctx, [], st.format, true);
    var e := TranscriptEvent(match r.2 case Some(t) => t case None => [], false);
    ServeFirst(engine, offer, st, s, stop, [drained]);
    SentShort(Finished(st.ctx), Sent(e));
    assert Step(engine, offer, st, s, Got(stop)) == Turn(Draining(st.ctx), r.0, [Finished(st.ctx), Sent(e)]);
    Drains(engine, offer, st.ctx, r.0, drained);
    Nothing([e]);
  }

  lemma Drains<S>(engine: Engine<S>, offer: Offer, ctx: nat, s: S, drained: Event)
    ensures Serve(engine, offer, Draining(ctx), s, [drained])
            == Service(Top, match engine.destroy case Some(d) => d(s, ctx) case None => s, [])
  {
    hide OnRequest, OnCollect, OnStreaming;
    assert [drained][1..] == [];
    SentShort(Destroyed(ctx), Destroyed(ctx));
  }

  /** A stream of any client: the language, the format and the audio chunks, block by block, reach the engine,
      whatever else arrives in between; its partial transcripts come back, then its text. */
  lemma AnyStream<S>(engine: Engine<S>, offer: Offer, s: S, opening: Event, start: Event, middle: seq<Event>,
      stop: Event, drained: Event, language: Option<seq<byte>>, f: Format)
    requires opening.typ == Ascii("transcribe-start") && Names(opening, "language", language)
    requires engine.create.Some? && engine.process.Some? && engine.create.value(s, f, language).1 != 0
    requires Announces(start, f) && NoneIs(middle, "audio-stop") && NoneIs(middle, "transcribe-stop")
    requires stop.typ == Ascii("audio-stop") || stop.typ == Ascii("transcribe-stop")
    ensures var created := engine.create.value(s, f, language);
            var fed := Fed(engine, created.0, created.1, f, Blocks(middle));
            var r := engine.process.value(fed, created.1, [], f, true);
            Serve(engine, offer, Top, s, [opening] + ([start] + (middle + ([stop] + [drained]))))
            == Service(Top, match engine.destroy case Some(d) => d(r.0, created.1) case None => r.0,
                       PartialReplies(engine, created.0, created.1, f, Blocks(middle))
                       + [TranscriptEvent(match r.2 case Some(t) => t case None => [], false)])
  {
    hide OnStreaming, OnSynthesize, OnCollect, TranscriptEvent, Blocks, FormatOf, Serve, PartialReplies, Fed;
    var created := engine.create.value(s, f, language);
    var tail := [stop] + [drained];
    StreamOpened(engine, offer, s, opening, start, middle + tail, language, f);
    ServeAppend(engine, offer, Streaming(created.1, f), created.0, middle, tail);
    FeedMiddle(engine, offer, Streaming(created.1, f), created.0, middle);
    FinishAndDrain(engine, offer, Streaming(created.1, f), Fed(engine, created.0, created.1, f, Blocks(middle)),
                   stop, drained);
    NoReply(Serve(engine, offer, Streaming(created.1, f), created.0, middle + tail));
  }

  /** The opening of a stream: the engine makes a context, and a null one ends the stream at once. */
  lemma StreamOpened<S>(engine: Engine<S>, offer: Offer, s: S, opening: Event, start: Event, rest: seq<Event>,
      language: Option<seq<byte>>, f: Format)
    requires opening.typ == Ascii("transcribe-start") && Names(opening, "language", language)
    requires engine.create.Some? && engine.process.Some? && Announces(start, f)
    ensures var created := engine.create.value(s, f, language);
            Serve(engine, offer, Top, s, [opening] + ([start] + rest))
            == Serve(engine, offer, if created.1 == 0 then Top else Streaming(created.1, f), created.0, rest)
  {
    hide OnStreaming, OnSynthesize, OnCollect, FormatOf, Serve, SentEvents, BuildInfo, InfoEvent, Announces,
         SpeechEvents;
    var created := engine.create.value(s, f, language);
    KindOfType(TranscribeStart);
    AnnouncedFormat(start, f);
    ServeFirst(engine, offer, Top, s, opening, [start] + rest);
    NoReply(Serve(engine, offer, AwaitStream(language), s, [start] + rest));
    ServeFirst(engine, offer, AwaitStream(language), s, start, rest);
    SentShort(Created(created.1), Created(created.1));
    NoReply(Serve(engine, offer, if created.1 == 0 then Top else Streaming(created.1, f), created.0, rest));
  }
}
