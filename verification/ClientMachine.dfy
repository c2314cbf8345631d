/** The operations of a client: what each sends, how it reads the replies, and what calling the callback
    directly would have given. */
module ClientMachine {
  import opened Bytes
  import opened Json
  import opened Wire
  import opened Audio
  import opened Protocol
  import opened Catalog
  import opened ServerMachine

  const SEND_CHUNK_SAMPLES: nat := 1024

  /** A completed operation; a stream is its start, its chunks and its stop. */
  datatype Op =
    | DescribeOp
    | SynthesizeOp(text: seq<byte>, voice: Option<seq<byte>>)
    | TranscribeOp(pcm: seq<Sample>, format: Format, language: Option<seq<byte>>)
    | StreamOp(chunks: seq<seq<Sample>>, format: Format, language: Option<seq<byte>>)

  /** The arguments the client functions accept: no empty audio. */
  predicate Acceptable(op: Op) {
    && (op.TranscribeOp? ==> op.pcm != [])
    && (op.StreamOp? ==> forall i :: 0 <= i < |op.chunks| ==> op.chunks[i] != [])
  }

  /** What an operation returns; None stands for a null pointer. */
  datatype Result =
    | Described(info: ServerInfo)
    | Spoken(pcm: seq<Sample>, format: Format)
    | Said(text: Option<seq<byte>>)
    | ProtocolError

  // -------- requests

  /** An empty language is no language. */
  function Language(language: Option<seq<byte>>): Option<seq<byte>> {
    if language.Some? && language.value != [] then language else None
  }

  function LanguageFields(language: Option<seq<byte>>): seq<Member> {
    match Language(language)
    case Some(l) => [Member(LANGUAGE, String(l))]
    case None => []
  }

  function SynthesizeEvent(text: seq<byte>, voice: Option<seq<byte>>): Event {
    Event(SYNTHESIZE, Fields([Member(TEXT, String(text))]
      + if voice.Some? then [Member(VOICE, Object([Member(NAME, String(voice.value))]))] else []), [])
  }

  function Requests(op: Op): seq<Event> {
    match op
    case DescribeOp => [Bare(Describe)]
    case SynthesizeOp(text, voice) => [SynthesizeEvent(text, voice)]
    case TranscribeOp(pcm, format, language) =>
      [Event(TRANSCRIBE, Fields(LanguageFields(language)), []), StartEvent(format, false)]
      + (ChunkEvents(format, Chunks(pcm, SEND_CHUNK_SAMPLES)) + [Bare(AudioStop)])
    case StreamOp(chunks, format, language) =>
      [Event(TRANSCRIBE_START, Fields(LanguageFields(language)), []), StartEvent(format, false)]
      + (ChunkEvents(format, chunks) + [Bare(AudioStop), Bare(TranscribeStop)])
  }

  // -------- replies

  datatype Receiver =
    | AwaitInfo
    | AwaitSpeech(gotStart: bool, format: Format, pcm: seq<Sample>)
    | AwaitText
    | AwaitFinal(last: Option<seq<byte>>)

  datatype Progress = More(receiver: Receiver) | Complete(result: Result)

  function Begin(op: Op): Receiver {
    match op
    case DescribeOp => AwaitInfo
    case SynthesizeOp(_, _) => AwaitSpeech(false, Format(0, 0, 0), [])
    case TranscribeOp(_, _, _) => AwaitText
    case StreamOp(_, _, _) => AwaitFinal(None)
  }

  function OnSpeech(r: Receiver, e: Event): Progress
    requires r.AwaitSpeech?
  {
    match KindOf(e.typ)
    case AudioStart => More(r.(gotStart := true, format := FormatOf(e, r.format)))
    case AudioChunk => if r.gotStart then More(r.(pcm := r.pcm + ToSamples(e.payload))) else Complete(ProtocolError)
    case AudioStop => Complete(Spoken(r.pcm, r.format))
    case ErrorKind => Complete(ProtocolError)
    case _ => More(r)
  }

  function OnText(e: Event): Progress {
    match KindOf(e.typ)
    case Transcript =>
      var text := AsText(Field(e, TEXT));
      Complete(if text.Some? then Said(text) else ProtocolError)
    case ErrorKind => Complete(ProtocolError)
    case _ => More(AwaitText)
  }

  /** The last text wins; a transcript without data counts for nothing. */
  function OnFinal(last: Option<seq<byte>>, e: Event): Progress {
    match KindOf(e.typ)
    case Transcript =>
      if e.data.None? then More(AwaitFinal(last))
      else
        var text := AsText(Field(e, TEXT));
        var latest := if text.Some? then text else last;
        if Field(e, IS_PARTIAL) == Some(True) then More(AwaitFinal(latest)) else Complete(Said(latest))
    case ErrorKind => Complete(ProtocolError)
    case _ => More(AwaitFinal(last))
  }

  function Receive(r: Receiver, e: Event): Progress {
    match r
    case AwaitInfo => Complete(if KindOf(e.typ) == Info then Described(InfoOf(e.data)) else ProtocolError)
    case AwaitSpeech(_, _, _) => OnSpeech(r, e)
    case AwaitText => OnText(e)
    case AwaitFinal(last) => OnFinal(last, e)
  }

  /** Reading replies until the operation is complete: its result and the replies it leaves, or None
      when more replies are needed. */
  function Collected(r: Receiver, events: seq<Event>): Option<(Result, seq<Event>)>
    decreases |events|
  {
    if events == [] then None
    else
      match Receive(r, events[0])
      case Complete(result) => Some((result, events[1..]))
      case More(next) => Collected(next, events[1..])
  }

  // -------- calling the callback directly

  /** The engines' state and the result when the operation's callback is called with its arguments. */
  function Direct<S>(engine: Engine<S>, offer: Offer, op: Op, s: S): (S, Result)
    requires Succeeds(engine, op, s)
  {
    match op
    case DescribeOp => (s, Described(InfoOf(Some(BuildInfo(offer)))))
    case SynthesizeOp(text, voice) =>
      var r := engine.tts.value(s, text, voice, None);
      (r.0, Spoken(r.1.value.pcm, r.1.value.format))
    case TranscribeOp(pcm, format, language) =>
      var r := engine.asr.value(s, pcm, format, Handed(language));
      (r.0, match r.1 case Some(text) => Said(Some(text)) case None => Said(Some([])))
    case StreamOp(chunks, format, language) =>
      var created := engine.create.value(s, format, Handed(language));
      var r := engine.process.value(Fed(engine, created.0, created.1, format, chunks), created.1, [], format, true);
      (if engine.destroy.Some? then engine.destroy.value(r.0, created.1) else r.0,
       match r.2 case Some(text) => Said(Some(text)) case None => Said(Some([])))
  }

  /** The language a callback is handed: the caller's own, and none when that is empty. */
  function Handed(language: Option<seq<byte>>): Option<seq<byte>> {
    if language == Some([]) then None else language
  }

  /** The engines' state after the chunks of a stream. */
  function Fed<S>(engine: Engine<S>, s: S, ctx: nat, format: Format, chunks: seq<seq<Sample>>): S
    requires engine.process.Some?
    decreases chunks
  {
    if chunks == [] then s
    else Fed(engine, engine.process.value(s, ctx, chunks[0], format, false).0, ctx, format, chunks[1..])
  }

  /** The partial transcripts of a stream: one for each chunk whose call went well and gave some text. */
  function PartialReplies<S>(engine: Engine<S>, s: S, ctx: nat, format: Format, chunks: seq<seq<Sample>>): seq<Event>
    requires engine.process.Some?
    decreases chunks
  {
    if chunks == [] then []
    else
      var (s', ok, answer) := engine.process.value(s, ctx, chunks[0], format, false);
      var behind := PartialReplies(engine, s', ctx, format, chunks[1..]);
      match answer
      case Some(text) => if !ok || |text| == 0 then behind else [TranscriptEvent(text, true)] + behind
      case None => behind
  }

  /** The callback is registered and yields something to answer with. */
  predicate Succeeds<S>(engine: Engine<S>, op: Op, s: S) {
    match op
    case DescribeOp => true
    case SynthesizeOp(text, voice) => engine.tts.Some? && engine.tts.value(s, text, voice, None).1.Some?
    case TranscribeOp(_, _, _) => engine.asr.Some?
    case StreamOp(_, format, language) =>
      engine.create.Some? && engine.process.Some? && engine.create.value(s, format, Handed(language)).1 != 0
  }

  // -------- the server over a list of events

  datatype Service<S> = Service(state: State, s: S, replies: seq<Event>)

  function SentEvents(actions: seq<Action>): seq<Event>
    decreases |actions|
  {
    if actions == [] then []
    else (if actions[0].Sent? then [actions[0].event] else []) + SentEvents(actions[1..])
  }

  lemma {:induction false} SentEventsAppend(a: seq<Action>, b: seq<Action>)
    ensures SentEvents(a + b) == SentEvents(a) + SentEvents(b)
    decreases |a|
  {
    if a == [] {
      assert a + b == b;
    } else {
      assert (a + b)[0] == a[0] && (a + b)[1..] == a[1..] + b;
      SentEventsAppend(a[1..], b);
    }
  }

  lemma {:induction false} SentEventsOfSends(events: seq<Event>)
    ensures SentEvents(Sends(events)) == events
    decreases |events|
  {
    if events != [] {
      assert Sends(events)[1..] == Sends(events[1..]);
      SentEventsOfSends(events[1..]);
      assert [events[0]] + events[1..] == events;
    }
  }

  /** The server's state and its replies when it reads these events. */
  function Serve<S>(engine: Engine<S>, offer: Offer, st: State, s: S, events: seq<Event>): Service<S>
    decreases |events|
  {
    if events == [] then Service(st, s, [])
    else
      var t := Step(engine, offer, st, s, Got(events[0]));
      var u := Serve(engine, offer, t.state, t.s, events[1..]);
      Service(u.state, u.s, SentEvents(t.actions) + u.replies)
  }

  lemma {:induction false} ServeAppend<S>(engine: Engine<S>, offer: Offer, st: State, s: S, a: seq<Event>,
      b: seq<Event>)
    ensures var t := Serve(engine, offer, st, s, a); var u := Serve(engine, offer, t.state, t.s, b);
            Serve(engine, offer, st, s, a + b) == Service(u.state, u.s, t.replies + u.replies)
    decreases |a|
  {
    if a == [] {
      assert a + b == b;
    } else {
      assert (a + b)[0] == a[0] && (a + b)[1..] == a[1..] + b;
      var t := Step(engine, offer, st, s, Got(a[0]));
      ServeAppend(engine, offer, t.state, t.s, a[1..], b);
      var v := Serve(engine, offer, t.state, t.s, a[1..]);
      var u := Serve(engine, offer, v.state, v.s, b);
      assert SentEvents(t.actions) + (v.replies + u.replies) == SentEvents(t.actions) + v.replies + u.replies;
    }
  }

  lemma {:induction false} ClosedStays<S>(engine: Engine<S>, offer: Offer, s: S, events: seq<Event>)
    ensures Serve(engine, offer, Closed, s, events).state == Closed
    decreases |events|
  {
    if events != [] {
      ClosedStays(engine, offer, s, events[1..]);
    }
  }

  function Gots(events: seq<Event>): (inputs: seq<Input>)
    ensures |inputs| == |events| && forall i :: 0 <= i < |events| ==> inputs[i] == Got(events[i])
  {
    seq(|events|, i requires 0 <= i < |events| => Got(events[i]))
  }

  /** Serving a list of events is the run of the server over reads that deliver them. */
  lemma {:induction false} ServeIsRun<S>(engine: Engine<S>, offer: Offer, st: State, s: S, events: seq<Event>)
    ensures var t := Run(engine, offer, st, s, Gots(events));
            Serve(engine, offer, st, s, events) == Service(t.state, t.s, SentEvents(t.actions))
    decreases |events|
  {
    if events != [] {
      assert Gots(events)[0] == Got(events[0]) && Gots(events)[1..] == Gots(events[1..]);
      var t := Step(engine, offer, st, s, Got(events[0]));
      ServeIsRun(engine, offer, t.state, t.s, events[1..]);
      SentEventsAppend(t.actions, Run(engine, offer, t.state, t.s, Gots(events[1..])).actions);
    }
  }

  /** Whenever the server drains, the event it waits for is the transcribe-stop of the stream. */
  predicate DrainSafe<S>(engine: Engine<S>, offer: Offer, st: State, s: S, events: seq<Event>)
    decreases |events|
  {
    && (st.Draining? ==> events != [] && events[0] == Bare(TranscribeStop))
    && (events != [] ==>
          var t := Step(engine, offer, st, s, Got(events[0]));
          DrainSafe(engine, offer, t.state, t.s, events[1..]))
  }

  ghost predicate IsPartial(e: Event) {
    exists text :: e == TranscriptEvent(text, true)
  }

  ghost predicate Partials(events: seq<Event>) {
    forall i :: 0 <= i < |events| ==> IsPartial(events[i])
  }

  /** The reply that completes an operation. */
  function Conclusion<S>(engine: Engine<S>, offer: Offer, op: Op, s: S): Event
    requires Succeeds(engine, op, s)
  {
    match op
    case DescribeOp => InfoEvent(offer)
    case SynthesizeOp(_, _) => Bare(AudioStop)
    case TranscribeOp(pcm, format, language) =>
      (match engine.asr.value(s, pcm, format, Handed(language)).1
       case Some(text) => TranscriptEvent(text, false)
       case None => TranscriptEvent([], false))
    case StreamOp(chunks, format, language) =>
      var created := engine.create.value(s, format, Handed(language));
      var fed := Fed(engine, created.0, created.1, format, chunks);
      (match engine.process.value(fed, created.1, [], format, true).2
       case Some(text) => TranscriptEvent(text, false)
       case None => TranscriptEvent([], false))
  }

  /** The replies to an operation: a speech, or the one reply that completes the operation, for a stream
      behind the partial transcripts. */
  ghost predicate Answers<S>(engine: Engine<S>, offer: Offer, op: Op, s: S, replies: seq<Event>)
    requires Succeeds(engine, op, s)
  {
    match op
    case SynthesizeOp(text, voice) => replies == SpeechEvents(engine.tts.value(s, text, voice, None).1.value)
    case StreamOp(chunks, format, language) =>
      var created := engine.create.value(s, format, Handed(language));
      replies == PartialReplies(engine, created.0, created.1, format, chunks) + [Conclusion(engine, offer, op, s)]
    case _ => replies == [Conclusion(engine, offer, op, s)]
  }

  /** Served from the top, the requests of an operation bring the server back to the top with the direct
      call's state, and the replies give the client the direct call's result and nothing more. */
  ghost predicate Faithful<S>(engine: Engine<S>, offer: Offer, op: Op, s: S)
    requires Succeeds(engine, op, s)
  {
    var (s', result) := Direct(engine, offer, op, s);
    var service := Serve(engine, offer, Top, s, Requests(op));
    && service.state == Top && service.s == s'
    && Answers(engine, offer, op, s, service.replies)
    && Collected(Begin(op), service.replies) == Some((result, []))
    && DrainSafe(engine, offer, Top, s, Requests(op))
  }
}
