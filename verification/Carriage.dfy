/** What either side sends is within the codec's limits, but for texts that are too long for the printer:
    which requests can be written and which replies reach the client. */
module Carriage {
  import opened Bytes
  import opened JsonNumber
  import opened JsonString
  import opened Json
  import opened Wire
  import opened Arrival
  import opened Audio
  import opened Protocol
  import opened Catalog
  import opened ServerMachine
  import opened ClientMachine
  import opened Fidelity
  import Client

  // -------- the size of a text

  /** A member whose key and value are short. */
  predicate Short(m: Member) {
    |m.key| <= 16 && match m.value
                     case Number(_) => true
                     case String(text) => |text| <= 16
                     case True => true
                     case _ => false
  }

  lemma {:induction false} EscapedIsShort(s: seq<byte>)
    ensures |s| <= |Escaped(s)| <= 6 * |s|
  {
    if s != [] {
      EscapedIsShort(s[1..]);
    }
  }

  lemma ShortMemberText(m: Member, last: bool, depth: nat)
    requires Short(m)
    ensures |RenderMember(m, last, false, depth)| <= 200
  {
    EscapedIsShort(m.key);
    match m.value
    case String(text) => EscapedIsShort(text);
    case Number(d) => DecimalIsShort(Saturate(d));
    case _ =>
  }

  lemma {:induction false} ShortMembersText(members: seq<Member>, depth: nat)
    requires forall i :: 0 <= i < |members| ==> Short(members[i])
    ensures |RenderMembers(members, false, depth)| <= 200 * |members|
  {
    if members != [] {
      ShortMemberText(members[0], |members| == 1, depth);
      ShortMembersText(members[1..], depth);
    }
  }

  lemma ShortObjectFits(members: seq<Member>)
    requires |members| <= 4 && forall i :: 0 <= i < |members| ==> Short(members[i])
    ensures Fits(Print(Object(members), false))
  {
    ShortMembersText(members, 1);
  }

  /** No header is too long. */
  lemma HeaderFits(e: Event)
    requires |e.typ| <= 16
    ensures Fits(HeaderText(e))
  {
    HeaderKeys();
    assert |TYPE| == 4 && |VERSION| == 7 && |DATA_LENGTH| == 11 && |PAYLOAD_LENGTH| == 14 && |VERSION_STRING| == 5;
    ShortObjectFits(Header(e.typ, |DataText(e)|, |e.payload|).members);
  }

  lemma TypesAreShort(k: Protocol.Kind)
    requires k != Other
    ensures |TypeOf(k)| <= 16
  {
  }

  /** An event of the protocol can be written exactly when its data fits. */
  lemma SendableIffDataFits(k: Protocol.Kind, e: Event)
    requires k != Other && e.typ == TypeOf(k) && Travels(e)
    ensures Sendable(e) <==> Fits(DataText(e))
  {
    TypesAreShort(k);
    HeaderFits(e);
  }

  lemma BareIsSendable(k: Protocol.Kind)
    requires k != Other
    ensures Sendable(Bare(k)) && Readable(Bare(k))
  {
    BareTravels(k);
    SendableIffDataFits(k, Bare(k));
  }

  lemma FormatFieldsAreShort(f: Format)
    ensures forall i :: 0 <= i < 3 ==> Short(FormatFields(f)[i])
  {
    assert |RATE| == 4 && |WIDTH| == 5 && |CHANNELS| == 8;
  }

  lemma StartIsSendable(f: Format, stamped: bool)
    ensures Sendable(StartEvent(f, stamped)) && Readable(StartEvent(f, stamped))
  {
    FormatFieldsAreShort(f);
    assert |TIMESTAMP| == 9;
    StartTravels(f, stamped);
    ShortObjectFits(StartEvent(f, stamped).data.value.members);
    SendableIffDataFits(AudioStart, StartEvent(f, stamped));
  }

  lemma ChunkIsSendable(f: Format, pcm: seq<Sample>)
    requires 2 * |pcm| <= INT_MAX
    ensures Sendable(ChunkEvent(f, pcm)) && Readable(ChunkEvent(f, pcm))
  {
    FormatFieldsAreShort(f);
    ChunkTravels(f, pcm);
    ShortObjectFits(FormatFields(f));
    SendableIffDataFits(AudioChunk, ChunkEvent(f, pcm));
  }

  lemma {:induction false} ChunksAreSendable(f: Format, chunks: seq<seq<Sample>>)
    requires forall i :: 0 <= i < |chunks| ==> 2 * |chunks[i]| <= INT_MAX
    ensures AllTravel(ChunkEvents(f, chunks))
    decreases |chunks|
  {
    if chunks != [] {
      ChunkIsSendable(f, chunks[0]);
      ChunksAreSendable(f, chunks[1..]);
      AllTravelAppend([ChunkEvent(f, chunks[0])], ChunkEvents(f, chunks[1..]));
    }
  }

  // -------- what a client sends

  /** C strings, and chunks whose bytes can be counted. */
  predicate Speakable(op: Op) {
    match op
    case DescribeOp => true
    case SynthesizeOp(text, voice) => NoNul(text) && (voice.Some? ==> NoNul(voice.value))
    case TranscribeOp(_, _, language) => language.Some? ==> NoNul(language.value)
    case StreamOp(chunks, _, language) =>
      (language.Some? ==> NoNul(language.value)) && forall i :: 0 <= i < |chunks| ==> 2 * |chunks[i]| <= INT_MAX
  }

  /** The one text of a request that the caller's strings make as long as they like. */
  predicate RequestFits(op: Op) {
    Fits(DataText(Requests(op)[0]))
  }

  lemma PairTravels(a: Event, b: Event)
    requires Sendable(b) && Readable(a) && Readable(b)
    ensures AllTravel([a, b]) <==> Sendable(a)
  {
    assert [a, b][0] == a && [a, b][1] == b;
  }

  lemma AllTravelBoth(a: seq<Event>, b: seq<Event>)
    requires AllTravel(b)
    ensures AllTravel(a + b) <==> AllTravel(a)
  {
    if AllTravel(a) {
      AllTravelAppend(a, b);
    }
    if AllTravel(a + b) {
      assert forall i :: 0 <= i < |a| ==> (a + b)[i] == a[i];
    }
  }

  /** The first two requests of a transcription. */
  lemma OpeningTravels(k: Protocol.Kind, format: Format, language: Option<seq<byte>>)
    requires k != Other && (language.Some? ==> NoNul(language.value))
    ensures var opening := Event(TypeOf(k), Fields(LanguageFields(language)), []);
            AllTravel([opening, StartEvent(format, false)]) <==> Fits(DataText(opening))
  {
    var opening := Event(TypeOf(k), Fields(LanguageFields(language)), []);
    Client.LanguageTravels(k, language);
    SendableIffDataFits(k, opening);
    StartIsSendable(format, false);
    PairTravels(opening, StartEvent(format, false));
  }

  lemma BareTail()
    ensures AllTravel([Bare(AudioStop)]) && AllTravel([Bare(AudioStop), Bare(TranscribeStop)])
  {
    BareIsSendable(AudioStop);
    BareIsSendable(TranscribeStop);
  }

  lemma BatchTravels(op: Op)
    requires op.TranscribeOp? && Speakable(op)
    ensures AllTravel(Requests(op)) <==> RequestFits(op)
  {
    hide Travels, Sendable, Readable;
    var opening := [Event(TRANSCRIBE, Fields(LanguageFields(op.language)), []), StartEvent(op.format, false)];
    var chunks := Chunks(op.pcm, SEND_CHUNK_SAMPLES);
    BareTail();
    OpeningTravels(Transcribe, op.format, op.language);
    ChunksConserve(op.pcm, SEND_CHUNK_SAMPLES);
    ChunksAreSendable(op.format, chunks);
    AllTravelAppend(ChunkEvents(op.format, chunks), [Bare(AudioStop)]);
    AllTravelBoth(opening, ChunkEvents(op.format, chunks) + [Bare(AudioStop)]);
  }

  lemma StreamTravels(op: Op)
    requires op.StreamOp? && Speakable(op)
    ensures AllTravel(Requests(op)) <==> RequestFits(op)
  {
    hide Travels, Sendable, Readable;
    var opening := [Event(TRANSCRIBE_START, Fields(LanguageFields(op.language)), []), StartEvent(op.format, false)];
    var tail := [Bare(AudioStop), Bare(TranscribeStop)];
    BareTail();
    OpeningTravels(TranscribeStart, op.format, op.language);
    ChunksAreSendable(op.format, op.chunks);
    AllTravelAppend(ChunkEvents(op.format, op.chunks), tail);
    AllTravelBoth(opening, ChunkEvents(op.format, op.chunks) + tail);
  }

  /** Everything a client sends can be written and read, exactly when its first request fits the printer. */
  lemma RequestsTravel(op: Op)
    requires Speakable(op)
    ensures AllTravel(Requests(op)) <==> RequestFits(op)
  {
    match op
    case DescribeOp => BareIsSendable(Describe);
    case SynthesizeOp(text, voice) =>
      Client.SynthesizeTravels(text, voice);
      SendableIffDataFits(Synthesize, SynthesizeEvent(text, voice));
    case TranscribeOp(_, _, _) => BatchTravels(op);
    case StreamOp(_, _, _) => StreamTravels(op);
  }

  // -------- what a server sends

  lemma InfoEventTravels(offer: Offer)
    ensures Travels(InfoEvent(offer))
  {
    TypesAreText(Info);
    InfoTravels(offer);
    NestsMore(BuildInfo(offer), 7, 1000);
  }

  lemma SpeechIsSendable(sp: Speech)
    ensures AllTravel(SpeechEvents(sp))
  {
    var chunks := Chunks(sp.pcm, AUDIO_CHUNK_SAMPLES);
    StartIsSendable(sp.format, true);
    BareTail();
    ChunksConserve(sp.pcm, AUDIO_CHUNK_SAMPLES);
    ChunksAreSendable(sp.format, chunks);
    AllTravelAppend([StartEvent(sp.format, true)], ChunkEvents(sp.format, chunks));
    AllTravelAppend([StartEvent(sp.format, true)] + ChunkEvents(sp.format, chunks), [Bare(AudioStop)]);
  }

  predicate ActionsWithin(actions: seq<Action>) {
    forall i :: 0 <= i < |actions| && actions[i].Sent? ==> Travels(actions[i].event)
  }

  lemma RequestWithin<S>(engine: Engine<S>, offer: Offer, s: S, e: Event)
    ensures ActionsWithin(OnRequest(engine, offer, s, e).actions)
  {
    hide BuildInfo, SpeechEvents, KindOf;
    InfoEventTravels(offer);
    var text := AsText(Field(e, TEXT));
    if KindOf(e.typ) == Synthesize && text.Some? && engine.tts.Some? {
      var r := engine.tts.value(s, text.value, VoiceField(e, NAME), VoiceField(e, SPEAKER));
      if r.1.Some? {
        SpeechIsSendable(r.1.value);
      }
    }
  }

  lemma StreamingWithin<S>(engine: Engine<S>, st: State, s: S, input: Input)
    requires st.Streaming?
    ensures ActionsWithin(OnStreaming(engine, st, s, input).actions)
  {
    if engine.process.Some? {
      var r := engine.process.value(s, st.ctx, [], st.format, true);
      TranscriptTravels(TextOr(r.2), false);
      if input.Got? {
        var t := engine.process.value(s, st.ctx, ToSamples(input.event.payload), st.format, false);
        if t.2.Some? {
          TranscriptTravels(t.2.value, true);
        }
      }
    }
  }

  lemma RepliesWithin<S>(engine: Engine<S>, offer: Offer, st: State, s: S, input: Input)
    ensures ActionsWithin(Step(engine, offer, st, s, input).actions)
  {
    match st
    case Top =>
      if input.Got? {
        RequestWithin(engine, offer, s, input.event);
      }
    case Collect(language, format, pcm) =>
      if engine.asr.Some? {
        var r := engine.asr.value(s, pcm, format, language);
        TranscriptTravels(TextOr(r.1), false);
      }
    case Streaming(_, _) => StreamingWithin(engine, st, s, input);
    case _ =>
  }

  lemma {:induction false} KeptTravel(actions: seq<Action>)
    requires ActionsWithin(actions)
    ensures AllTravel(Kept(SentEvents(actions)))
    decreases |actions|
  {
    if actions != [] {
      var e := actions[0];
      var first := if e.Sent? then [e.event] else [];
      KeptTravel(actions[1..]);
      KeptAppend(first, SentEvents(actions[1..]));
      if e.Sent? {
        KeptOne(e.event);
      }
      AllTravelAppend(Kept(first), Kept(SentEvents(actions[1..])));
    }
  }

  /** What a server writes in answer to any input can be read, whatever the engines answer. */
  lemma RepliesTravel<S>(engine: Engine<S>, offer: Offer, st: State, s: S, input: Input)
    ensures AllTravel(Kept(SentEvents(Step(engine, offer, st, s, input).actions)))
  {
    RepliesWithin(engine, offer, st, s, input);
    KeptTravel(Step(engine, offer, st, s, input).actions);
  }

  lemma {:induction false} ServedTravel<S>(engine: Engine<S>, offer: Offer, st: State, s: S, events: seq<Event>)
    ensures AllTravel(Kept(Serve(engine, offer, st, s, events).replies))
    decreases |events|
  {
    if events != [] {
      var t := Step(engine, offer, st, s, Got(events[0]));
      var rest := Serve(engine, offer, t.state, t.s, events[1..]).replies;
      RepliesTravel(engine, offer, st, s, Got(events[0]));
      ServedTravel(engine, offer, t.state, t.s, events[1..]);
      KeptAppend(SentEvents(t.actions), rest);
      AllTravelAppend(Kept(SentEvents(t.actions)), Kept(rest));
    }
  }

  // -------- which operations are answered

  /** The reply that completes the operation fits the printer; that of a synthesize always does. */
  predicate Audible<S>(engine: Engine<S>, offer: Offer, op: Op, s: S)
    requires Succeeds(engine, op, s)
  {
    op.SynthesizeOp? || Fits(DataText(Conclusion(engine, offer, op, s)))
  }

  lemma {:induction false} PlainIsNotEscaped(s: seq<byte>)
    requires forall i :: 0 <= i < |s| ==> EscapeByte(s[i]) == [s[i]]
    ensures Escaped(s) == s
  {
    if s != [] {
      PlainIsNotEscaped(s[1..]);
      Cons(s);
    }
  }

  lemma OneMemberText(m: Member)
    ensures Print(Object([m]), false) == [LBRACE] + RenderMember(m, true, false, 1) + [RBRACE]
  {
    assert [m][1..] == [];
    assert RenderMembers([m], false, 1) == RenderMember(m, true, false, 1) + [];
  }

  /** For a transcript this is a bound on its text. */
  lemma TranscriptFits(text: seq<byte>)
    ensures Fits(DataText(TranscriptEvent(text, false))) <==> |Escaped(text)| <= INT_MAX - 13
  {
    var m := Member(TEXT, String(text));
    assert TEXT == [116, 101, 120, 116];
    PlainIsNotEscaped(TEXT);
    OneMemberText(m);
    assert TranscriptEvent(text, false).data.value == Object([m]) by {
      assert [m] + [] == [m];
    }
    assert |RenderMember(m, true, false, 1)| == |Quoted(TEXT)| + 1 + |Quoted(text)|;
  }

  lemma TranscriptIsSendable(text: Text)
    ensures Sendable(TranscriptEvent(text, false)) <==> Fits(DataText(TranscriptEvent(text, false)))
  {
    TranscriptTravels(text, false);
    SendableIffDataFits(Transcript, TranscriptEvent(text, false));
  }

  lemma ConclusionTravels<S>(engine: Engine<S>, offer: Offer, op: Op, s: S)
    requires Succeeds(engine, op, s)
    ensures Sendable(Conclusion(engine, offer, op, s)) <==> Audible(engine, offer, op, s)
  {
    hide Sendable, Travels, BuildInfo, DataText, TranscriptEvent;
    match op
    case DescribeOp =>
      InfoEventTravels(offer);
      SendableIffDataFits(Info, InfoEvent(offer));
    case SynthesizeOp(_, _) => BareIsSendable(AudioStop);
    case TranscribeOp(pcm, format, language) =>
      var answer := engine.asr.value(s, pcm, format, Handed(language)).1;
      TranscriptIsSendable(match answer case Some(text) => text case None => []);
    case StreamOp(chunks, format, language) =>
      var created := engine.create.value(s, format, Handed(language));
      var fed := Fed(engine, created.0, created.1, format, chunks);
      var answer := engine.process.value(fed, created.1, [], format, true).2;
      TranscriptIsSendable(match answer case Some(text) => text case None => []);
  }

  lemma {:induction false} PartialsWait(last: Option<seq<byte>>, partials: seq<Event>)
    requires Partials(partials)
    ensures Collected(AwaitFinal(last), partials) == None
    decreases |partials|
  {
    if partials != [] {
      KindOfType(Transcript);
      assert IsPartial(partials[0]);
      var said :| partials[0] == TranscriptEvent(said, true);
      TranscriptComesBack(said, true);
      PartialsWait(Some(said), partials[1..]);
    }
  }

  lemma PartialsKept(events: seq<Event>)
    requires Partials(events)
    ensures Partials(Kept(events))
  {
    KeptAreSome(events);
    forall i | 0 <= i < |Kept(events)| ensures IsPartial(Kept(events)[i]) {
      assert Kept(events)[i] in events;
    }
  }

  /** What reaches the client of the replies to a stream. */
  lemma StreamHeard(partials: seq<Event>, text: seq<byte>)
    requires Partials(partials)
    ensures var last := TranscriptEvent(text, false);
            Collected(AwaitFinal(None), Kept(partials + [last]))
            == if Sendable(last) then Some((Said(Some(text)), [])) else None
  {
    var last := TranscriptEvent(text, false);
    KeptAppend(partials, [last]);
    KeptOne(last);
    PartialsKept(partials);
    if Sendable(last) {
      PartialsPass(None, Kept(partials), text);
    } else {
      Nothing(Kept(partials));
      PartialsWait(None, Kept(partials));
    }
  }

  lemma OneReplyHeard(receiver: Receiver, e: Event, result: Result)
    requires Collected(receiver, [e]) == Some((result, []))
    ensures Collected(receiver, Kept([e])) == if Sendable(e) then Some((result, [])) else None
  {
    KeptOne(e);
  }

  /** The text of a stream's final reply is the direct call's. */
  lemma StreamText<S>(engine: Engine<S>, offer: Offer, op: Op, s: S) returns (text: seq<byte>)
    requires op.StreamOp? && Succeeds(engine, op, s)
    ensures Conclusion(engine, offer, op, s) == TranscriptEvent(text, false)
    ensures Direct(engine, offer, op, s).1 == Said(Some(text))
  {
    hide BuildInfo, InfoOf, DataText;
    var created := engine.create.value(s, op.format, Handed(op.language));
    var fed := Fed(engine, created.0, created.1, op.format, op.chunks);
    var answer := engine.process.value(fed, created.1, [], op.format, true).2;
    text := match answer case Some(said) => said case None => [];
  }

  /** Of the replies to an operation the client hears those that fit: they give it the direct call's result,
      exactly when the one that completes the operation fits; otherwise they leave it waiting. */
  lemma HeardExactlyWhenAudible<S>(engine: Engine<S>, offer: Offer, op: Op, s: S)
    requires Acceptable(op) && Succeeds(engine, op, s)
    ensures Collected(Begin(op), Kept(Serve(engine, offer, Top, s, Requests(op)).replies))
            == if Audible(engine, offer, op, s) then Some((Direct(engine, offer, op, s).1, [])) else None
  {
    hide Step, Serve, Sendable, BuildInfo, InfoOf, DrainSafe, Requests, Direct, Conclusion, TranscriptEvent,
         PartialReplies;
    var replies := Serve(engine, offer, Top, s, Requests(op)).replies;
    EveryOpIsFaithful(engine, offer, op, s);
    ConclusionTravels(engine, offer, op, s);
    match op
    case SynthesizeOp(text, voice) =>
      SpeechIsSendable(engine.tts.value(s, text, voice, None).1.value);
      KeptAll(replies);
    case StreamOp(chunks, format, language) =>
      var created := engine.create.value(s, format, Handed(language));
      var text := StreamText(engine, offer, op, s);
      PartialRepliesArePartial(engine, created.0, created.1, format, chunks);
      StreamHeard(PartialReplies(engine, created.0, created.1, format, chunks), text);
    case _ => OneReplyHeard(Begin(op), Conclusion(engine, offer, op, s), Direct(engine, offer, op, s).1);
  }
}
