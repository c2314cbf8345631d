/** What a server makes of the inputs it observes on one connection: the replies it sends and the
    calls it makes to the engines, as a state machine. */
module ServerMachine {
  import opened Bytes
  import opened Json
  import opened Wire
  import opened Audio
  import opened Protocol
  import opened Catalog

  const AUDIO_CHUNK_SAMPLES: nat := 4096

  const DEFAULT_FORMAT: Format := Format(16000, 2, 1)

  datatype Speech = Speech(pcm: seq<Sample>, format: Format)

  /** The registered callbacks, None where there is none. Each takes the engines' state along; a stream
      context is a pointer, 0 the null pointer. A result of None stands for an error or a null pointer,
      except that a streaming call reports its error apart from its text. */
  datatype Engine<!S> = Engine(
    tts: Option<(S, seq<byte>, Option<seq<byte>>, Option<seq<byte>>) -> (S, Option<Speech>)>,
    asr: Option<(S, seq<Sample>, Format, Option<seq<byte>>) -> (S, Option<Text>)>,
    create: Option<(S, Format, Option<seq<byte>>) -> (S, nat)>,
    process: Option<(S, nat, seq<Sample>, Format, bool) -> (S, bool, Option<Text>)>,
    destroy: Option<(S, nat) -> S>)

  /** One observation: the running flag is down where it is tested before a read, or the read's result. */
  datatype Input = Stopped | Got(event: Event) | Lost(error: Error)

  datatype State =
    | Top
    | AwaitBatch(language: Option<seq<byte>>)
    | Collect(language: Option<seq<byte>>, format: Format, pcm: seq<Sample>)
    | AwaitStream(language: Option<seq<byte>>)
    | Streaming(ctx: nat, format: Format)
    | Draining(ctx: nat)
    | Closed

  datatype Action =
    | Sent(event: Event)
    | Created(ctx: nat)
    | Processed(ctx: nat, pcm: seq<Sample>)
    | Finished(ctx: nat)
    | Destroyed(ctx: nat)

  /** Where the server stands after an input, and what it did. */
  datatype Turn<S> = Turn(state: State, s: S, actions: seq<Action>)

  // -------- the replies

  function InfoEvent(o: Offer): Event {
    Event(INFO, Some(BuildInfo(o)), [])
  }

  function ChunkEvents(f: Format, chunks: seq<seq<Sample>>): seq<Event> {
    if chunks == [] then [] else [ChunkEvent(f, chunks[0])] + ChunkEvents(f, chunks[1..])
  }

  function SpeechEvents(sp: Speech): seq<Event> {
    [StartEvent(sp.format, true)] + ChunkEvents(sp.format, Chunks(sp.pcm, AUDIO_CHUNK_SAMPLES)) + [Bare(AudioStop)]
  }

  function Sends(events: seq<Event>): seq<Action> {
    seq(|events|, i requires 0 <= i < |events| => Sent(events[i]))
  }

  function TextOr(t: Option<Text>): Text {
    if t.Some? then t.value else []
  }

  // -------- one input

  function VoiceField(e: Event, name: seq<byte>): Option<seq<byte>> {
    match Field(e, VOICE)
    case Some(Object(members)) => AsText(Lookup(members, name))
    case _ => None
  }

  function OnSynthesize<S>(engine: Engine<S>, s: S, e: Event): Turn<S> {
    var text := AsText(Field(e, TEXT));
    if text.None? || engine.tts.None? then Turn(Top, s, [])
    else
      var (s', speech) := engine.tts.value(s, text.value, VoiceField(e, NAME), VoiceField(e, SPEAKER));
      Turn(Top, s', if speech.Some? then Sends(SpeechEvents(speech.value)) else [])
  }

  /** A request at the top of the loop. */
  function OnRequest<S>(engine: Engine<S>, offer: Offer, s: S, e: Event): Turn<S> {
    match KindOf(e.typ)
    case Describe => Turn(Top, s, [Sent(InfoEvent(offer))])
    case Synthesize => OnSynthesize(engine, s, e)
    case Transcribe => Turn(if engine.asr.Some? then AwaitBatch(AsText(Field(e, LANGUAGE))) else Top, s, [])
    case TranscribeStart =>
      Turn(if engine.create.Some? && engine.process.Some? then AwaitStream(AsText(Field(e, LANGUAGE))) else Top, s, [])
    case _ => Turn(Top, s, [])
  }

  /** The collected audio goes to the engine, unless there is none. */
  function OnBatchEnd<S>(engine: Engine<S>, s: S, st: State): Turn<S>
    requires st.Collect?
  {
    if st.pcm == [] || engine.asr.None? then Turn(Top, s, [])
    else
      var (s', text) := engine.asr.value(s, st.pcm, st.format, st.language);
      Turn(Top, s', [Sent(TranscriptEvent(TextOr(text), false))])
  }

  function OnCollect<S>(engine: Engine<S>, st: State, s: S, input: Input): Turn<S>
    requires st.Collect?
  {
    if !input.Got? then Turn(Top, s, [])
    else
      match KindOf(input.event.typ)
      case AudioChunk => Turn(st.(pcm := st.pcm + ToSamples(input.event.payload)), s, [])
      case AudioStop => OnBatchEnd(engine, s, st)
      case _ => Turn(st, s, [])
  }

  function OnStreamStart<S>(engine: Engine<S>, st: State, s: S, e: Event): Turn<S>
    requires st.AwaitStream?
  {
    if engine.create.None? then Turn(Top, s, [])
    else
      var format := FormatOf(e, DEFAULT_FORMAT);
      var (s', ctx) := engine.create.value(s, format, st.language);
      Turn(if ctx == 0 then Top else Streaming(ctx, format), s', [Created(ctx)])
  }

  /** A chunk of a stream: the call, and the partial transcript when there is text in it. */
  function OnStreamChunk<S>(engine: Engine<S>, st: State, s: S, pcm: seq<Sample>): Turn<S>
    requires st.Streaming?
  {
    if engine.process.None? then Turn(st, s, [])
    else
      var (s', ok, text) := engine.process.value(s, st.ctx, pcm, st.format, false);
      Turn(st, s', [Processed(st.ctx, pcm)]
                   + if ok && text.Some? && text.value != [] then [Sent(TranscriptEvent(text.value, true))] else [])
  }

  /** The final call and the final transcript. */
  function FinishStream<S>(engine: Engine<S>, st: State, s: S): Turn<S>
    requires st.Streaming?
  {
    if engine.process.None? then Turn(Draining(st.ctx), s, [])
    else
      var (s', ok, text) := engine.process.value(s, st.ctx, [], st.format, true);
      Turn(Draining(st.ctx), s', [Finished(st.ctx), Sent(TranscriptEvent(TextOr(text), false))])
  }

  function DestroyStream<S>(engine: Engine<S>, ctx: nat, s: S): Turn<S> {
    if engine.destroy.Some? then Turn(Top, engine.destroy.value(s, ctx), [Destroyed(ctx)]) else Turn(Top, s, [])
  }

  function OnStreaming<S>(engine: Engine<S>, st: State, s: S, input: Input): Turn<S>
    requires st.Streaming?
  {
    if !input.Got? then
      var t := FinishStream(engine, st, s);
      var u := DestroyStream(engine, st.ctx, t.s);
      Turn(Top, u.s, t.actions + u.actions)
    else
      match KindOf(input.event.typ)
      case AudioChunk =>
        if input.event.payload == [] then Turn(st, s, [])
        else OnStreamChunk(engine, st, s, ToSamples(input.event.payload))
      case AudioStop => FinishStream(engine, st, s)
      case TranscribeStop => FinishStream(engine, st, s)
      case _ => Turn(st, s, [])
  }

  predicate IsStart(input: Input) {
    input.Got? && KindOf(input.event.typ) == AudioStart
  }

  /** The server's answer to one input. The running flag is tested in three states only. */
  function Step<S>(engine: Engine<S>, offer: Offer, st: State, s: S, input: Input): Turn<S> {
    match st
    case Top => if input.Got? then OnRequest(engine, offer, s, input.event) else Turn(Closed, s, [])
    case AwaitBatch(language) =>
      if input.Stopped? then Turn(st, s, [])
      else Turn(if IsStart(input) then Collect(language, FormatOf(input.event, DEFAULT_FORMAT), []) else Closed, s, [])
    case Collect(_, _, _) => OnCollect(engine, st, s, input)
    case AwaitStream(_) =>
      if input.Stopped? then Turn(st, s, [])
      else if IsStart(input) then OnStreamStart(engine, st, s, input.event) else Turn(Closed, s, [])
    case Streaming(_, _) => OnStreaming(engine, st, s, input)
    case Draining(ctx) => if input.Stopped? then Turn(st, s, []) else DestroyStream(engine, ctx, s)
    case Closed => Turn(Closed, s, [])
  }

  /** All inputs of a connection, first to last. */
  function Run<S>(engine: Engine<S>, offer: Offer, st: State, s: S, inputs: seq<Input>): Turn<S>
    decreases |inputs|, 0
  {
    if inputs == [] then Turn(st, s, []) else RunFrom(engine, offer, st, s, inputs[0], inputs[1..])
  }

  function RunFrom<S>(engine: Engine<S>, offer: Offer, st: State, s: S, input: Input, rest: seq<Input>): Turn<S>
    decreases |rest|, 1
  {
    var t := Step(engine, offer, st, s, input);
    var u := Run(engine, offer, t.state, t.s, rest);
    Turn(u.state, u.s, t.actions + u.actions)
  }

  lemma {:induction false} RunAppend<S>(engine: Engine<S>, offer: Offer, st: State, s: S, a: seq<Input>, b: seq<Input>)
    ensures var t := Run(engine, offer, st, s, a); var u := Run(engine, offer, t.state, t.s, b);
            Run(engine, offer, st, s, a + b) == Turn(u.state, u.s, t.actions + u.actions)
    decreases a
  {
    if a == [] {
      assert a + b == b;
    } else {
      assert (a + b)[0] == a[0] && (a + b)[1..] == a[1..] + b;
      var t := Step(engine, offer, st, s, a[0]);
      RunAppend(engine, offer, t.state, t.s, a[1..], b);
      var v := Run(engine, offer, t.state, t.s, a[1..]);
      var u := Run(engine, offer, v.state, v.s, b);
      assert t.actions + (v.actions + u.actions) == t.actions + v.actions + u.actions;
    }
  }

  // -------- when there is no reply

  /** A request is answered at once only when it is a describe, or a synthesize whose text, callback and
      result are all there; every other request is silent. */
  lemma AnsweredExactlyWhen<S>(engine: Engine<S>, offer: Offer, s: S, e: Event)
    ensures var text := AsText(Field(e, TEXT));
            Step(engine, offer, Top, s, Got(e)).actions != []
            <==> KindOf(e.typ) == Describe
                 || (KindOf(e.typ) == Synthesize && text.Some? && engine.tts.Some?
                     && engine.tts.value(s, text.value, VoiceField(e, NAME), VoiceField(e, SPEAKER)).1.Some?)
  {
    var text := AsText(Field(e, TEXT));
    if KindOf(e.typ) == Synthesize && text.Some? && engine.tts.Some? {
      var r := engine.tts.value(s, text.value, VoiceField(e, NAME), VoiceField(e, SPEAKER));
      if r.1.Some? {
        assert Sends(SpeechEvents(r.1.value))[0] == Sent(StartEvent(r.1.value.format, true));
      }
    }
  }

  /** No audio-stop among the inputs. */
  predicate NoStop(inputs: seq<Input>) {
    forall i :: 0 <= i < |inputs| ==> inputs[i].Got? && KindOf(inputs[i].event.typ) != AudioStop
  }

  /** A batch that is cut off before its audio-stop, by a failed read or by the end of the server, leaves no
      trace: no call, no reply, and the server is back at the top of its loop. */
  lemma {:induction false} AbortedBatchIsSilent<S>(engine: Engine<S>, offer: Offer, st: State, s: S,
      inputs: seq<Input>, cut: Input)
    requires st.Collect? && NoStop(inputs) && !cut.Got?
    ensures Run(engine, offer, st, s, inputs + [cut]) == Turn(Top, s, [])
    decreases |inputs|
  {
    if inputs == [] {
      assert inputs + [cut] == [cut] && [cut][1..] == [];
      assert Run(engine, offer, Top, s, []) == Turn(Top, s, []);
    } else {
      assert (inputs + [cut])[0] == inputs[0] && (inputs + [cut])[1..] == inputs[1..] + [cut];
      var t := Step(engine, offer, st, s, inputs[0]);
      assert t.state.Collect? && t.s == s && t.actions == [];
      AbortedBatchIsSilent(engine, offer, t.state, s, inputs[1..], cut);
    }
  }

  // -------- the life of a stream

  /** How far the life of a stream context has come. */
  datatype Phase = NoStream | Open(ctx: nat) | Ended(ctx: nat) | Answered(ctx: nat)

  predicate IsTranscript(e: Event, partial: bool) {
    e.typ == TRANSCRIPT && (Field(e, IS_PARTIAL) == Some(True)) == partial
  }

  /** The rules of a stream's life: calls that are not final, with partial transcripts between them; one
      final call; one transcript that is not partial; one destroy when there is a callback for it. None
      means a rule was broken. */
  function Follow(destroys: bool, phase: Phase, a: Action): Option<Phase> {
    match phase
    case NoStream =>
      (match a
       case Created(ctx) => Some(if ctx == 0 then NoStream else Open(ctx))
       case Sent(_) => Some(NoStream)
       case _ => None)
    case Open(ctx) =>
      (match a
       case Processed(c, _) => if c == ctx then Some(phase) else None
       case Sent(e) => if IsTranscript(e, true) then Some(phase) else None
       case Finished(c) => if c == ctx then Some(Ended(ctx)) else None
       case _ => None)
    case Ended(ctx) =>
      (match a
       case Sent(e) => if IsTranscript(e, false) then Some(if destroys then Answered(ctx) else NoStream) else None
       case _ => None)
    case Answered(ctx) => if a == Destroyed(ctx) then Some(NoStream) else None
  }

  function FollowAll(destroys: bool, phase: Phase, actions: seq<Action>): Option<Phase>
    decreases |actions|
  {
    if actions == [] then Some(phase)
    else
      match Follow(destroys, phase, actions[0])
      case None => None
      case Some(next) => FollowAll(destroys, next, actions[1..])
  }

  lemma {:induction false} FollowAppend(destroys: bool, phase: Phase, a: seq<Action>, b: seq<Action>)
    requires FollowAll(destroys, phase, a).Some?
    ensures FollowAll(destroys, phase, a + b) == FollowAll(destroys, FollowAll(destroys, phase, a).value, b)
    decreases a
  {
    if a == [] {
      assert a + b == b;
    } else {
      assert (a + b)[0] == a[0] && (a + b)[1..] == a[1..] + b;
      FollowAppend(destroys, Follow(destroys, phase, a[0]).value, a[1..], b);
    }
  }

  lemma {:induction false} FollowSends(destroys: bool, events: seq<Event>)
    ensures FollowAll(destroys, NoStream, Sends(events)) == Some(NoStream)
    decreases |events|
  {
    if events != [] {
      assert Sends(events)[1..] == Sends(events[1..]);
      FollowSends(destroys, events[1..]);
    }
  }

  /** The phase a server state stands for. */
  function PhaseOf(destroys: bool, st: State): Phase {
    match st
    case Streaming(ctx, _) => Open(ctx)
    case Draining(ctx) => if destroys then Answered(ctx) else NoStream
    case _ => NoStream
  }

  /** States a connection can be in: a context is never null, and streams need their callbacks. */
  predicate Sound<S>(engine: Engine<S>, st: State) {
    && (st.Streaming? ==> st.ctx != 0 && engine.process.Some?)
    && (st.AwaitStream? ==> engine.create.Some? && engine.process.Some?)
    && ((st.AwaitBatch? || st.Collect?) ==> engine.asr.Some?)
  }

  lemma StepKeepsSound<S>(engine: Engine<S>, offer: Offer, st: State, s: S, input: Input)
    requires Sound(engine, st)
    ensures Sound(engine, Step(engine, offer, st, s, input).state)
  {
    hide BuildInfo, SpeechEvents, FormatOf, VoiceField, KindOf, InfoEvent, TranscriptEvent;
  }

  lemma FollowOne(destroys: bool, phase: Phase, a: Action)
    ensures FollowAll(destroys, phase, [a]) == Follow(destroys, phase, a)
  {
    assert [a][1..] == [];
  }

  lemma FollowTwo(destroys: bool, phase: Phase, a: Action, b: Action)
    requires Follow(destroys, phase, a).Some?
    ensures FollowAll(destroys, phase, [a, b]) == Follow(destroys, Follow(destroys, phase, a).value, b)
  {
    assert [a, b][1..] == [b];
    FollowOne(destroys, Follow(destroys, phase, a).value, b);
  }

  lemma Transcripts(text: seq<byte>, partial: bool)
    ensures IsTranscript(TranscriptEvent(text, partial), partial)
  {
    TranscriptComesBack(text, partial);
  }

  lemma ChunkFollows<S>(engine: Engine<S>, st: State, s: S, pcm: seq<Sample>)
    requires st.Streaming? && Sound(engine, st)
    ensures FollowAll(engine.destroy.Some?, Open(st.ctx), OnStreamChunk(engine, st, s, pcm).actions)
      == Some(Open(st.ctx))
  {
    var (s', ok, text) := engine.process.value(s, st.ctx, pcm, st.format, false);
    var d := engine.destroy.Some?;
    FollowOne(d, Open(st.ctx), Processed(st.ctx, pcm));
    if ok && text.Some? && text.value != [] {
      Transcripts(text.value, true);
      FollowTwo(d, Open(st.ctx), Processed(st.ctx, pcm), Sent(TranscriptEvent(text.value, true)));
      assert OnStreamChunk(engine, st, s, pcm).actions
          == [Processed(st.ctx, pcm), Sent(TranscriptEvent(text.value, true))];
    } else {
      assert OnStreamChunk(engine, st, s, pcm).actions == [Processed(st.ctx, pcm)];
    }
  }

  lemma FinishFollows<S>(engine: Engine<S>, st: State, s: S)
    requires st.Streaming? && Sound(engine, st)
    ensures FollowAll(engine.destroy.Some?, Open(st.ctx), FinishStream(engine, st, s).actions)
            == Some(PhaseOf(engine.destroy.Some?, Draining(st.ctx)))
  {
    var (s', ok, text) := engine.process.value(s, st.ctx, [], st.format, true);
    Transcripts(TextOr(text), false);
    FollowTwo(engine.destroy.Some?, Open(st.ctx), Finished(st.ctx), Sent(TranscriptEvent(TextOr(text), false)));
  }

  lemma DestroyFollows<S>(engine: Engine<S>, ctx: nat, s: S)
    ensures var d := engine.destroy.Some?;
            FollowAll(d, PhaseOf(d, Draining(ctx)), DestroyStream(engine, ctx, s).actions) == Some(NoStream)
  {
    FollowOne(engine.destroy.Some?, Answered(ctx), Destroyed(ctx));
  }

  /** Every input keeps the rules, whatever the engines answer. */
  lemma StepFollows<S>(engine: Engine<S>, offer: Offer, st: State, s: S, input: Input)
    requires Sound(engine, st)
    ensures var d := engine.destroy.Some?; var t := Step(engine, offer, st, s, input);
            FollowAll(d, PhaseOf(d, st), t.actions) == Some(PhaseOf(d, t.state))
  {
    hide BuildInfo, SpeechEvents, FormatOf, VoiceField, KindOf, OnStreaming, OnRequest;
    var d := engine.destroy.Some?;
    match st
    case Top =>
      if input.Got? {
        RequestFollows(engine, offer, s, input.event);
      }
    case Collect(_, _, _) =>
      var (s', text) := engine.asr.value(s, st.pcm, st.format, st.language);
      FollowOne(d, NoStream, Sent(TranscriptEvent(TextOr(text), false)));
    case AwaitStream(_) =>
      if IsStart(input) {
        var (s', ctx) := engine.create.value(s, FormatOf(input.event, DEFAULT_FORMAT), st.language);
        FollowOne(d, NoStream, Created(ctx));
      }
    case Streaming(_, _) => StreamingFollows(engine, st, s, input);
    case Draining(ctx) => DestroyFollows(engine, ctx, s);
    case _ =>
  }

  lemma RequestFollows<S>(engine: Engine<S>, offer: Offer, s: S, e: Event)
    ensures var d := engine.destroy.Some?; var t := OnRequest(engine, offer, s, e);
            FollowAll(d, NoStream, t.actions) == Some(NoStream) && PhaseOf(d, t.state) == NoStream
  {
    hide BuildInfo, SpeechEvents, FormatOf, VoiceField;
    var d := engine.destroy.Some?;
    FollowOne(d, NoStream, Sent(InfoEvent(offer)));
    var text := AsText(Field(e, TEXT));
    if KindOf(e.typ) == Synthesize && text.Some? && engine.tts.Some? {
      var (s', speech) := engine.tts.value(s, text.value, VoiceField(e, NAME), VoiceField(e, SPEAKER));
      if speech.Some? {
        FollowSends(d, SpeechEvents(speech.value));
      }
    }
  }

  lemma StreamingFollows<S>(engine: Engine<S>, st: State, s: S, input: Input)
    requires st.Streaming? && Sound(engine, st)
    ensures var d := engine.destroy.Some?; var t := OnStreaming(engine, st, s, input);
            FollowAll(d, Open(st.ctx), t.actions) == Some(PhaseOf(d, t.state))
  {
    var d := engine.destroy.Some?;
    FinishFollows(engine, st, s);
    if !input.Got? {
      var t := FinishStream(engine, st, s);
      var u := DestroyStream(engine, st.ctx, t.s);
      DestroyFollows(engine, st.ctx, t.s);
      FollowAppend(d, Open(st.ctx), t.actions, u.actions);
    } else if KindOf(input.event.typ) == AudioChunk && input.event.payload != [] {
      ChunkFollows(engine, st, s, ToSamples(input.event.payload));
    }
  }

  /** In every run, read errors and shutdown included, each stream that was created gets its calls that
      are not final, exactly one final call, exactly one final transcript and exactly one destroy (when
      registered), in this order, and only a stream that is still open can be missing the rest. */
  lemma {:induction false} StreamsLiveByTheRules<S>(engine: Engine<S>, offer: Offer, st: State, s: S,
      inputs: seq<Input>)
    requires Sound(engine, st)
    ensures var d := engine.destroy.Some?; var t := Run(engine, offer, st, s, inputs);
            Sound(engine, t.state) && FollowAll(d, PhaseOf(d, st), t.actions) == Some(PhaseOf(d, t.state))
    decreases inputs
  {
    if inputs != [] {
      var d := engine.destroy.Some?;
      var t := Step(engine, offer, st, s, inputs[0]);
      StepKeepsSound(engine, offer, st, s, inputs[0]);
      StepFollows(engine, offer, st, s, inputs[0]);
      StreamsLiveByTheRules(engine, offer, t.state, t.s, inputs[1..]);
      FollowAppend(d, PhaseOf(d, st), t.actions, Run(engine, offer, t.state, t.s, inputs[1..]).actions);
    }
  }

  /** When the connection is closed, every stream has come to its end. */
  lemma ClosedLeavesNoStream<S>(engine: Engine<S>, offer: Offer, s: S, inputs: seq<Input>)
    requires Run(engine, offer, Top, s, inputs).state == Closed
    ensures FollowAll(engine.destroy.Some?, NoStream, Run(engine, offer, Top, s, inputs).actions) == Some(NoStream)
  {
    StreamsLiveByTheRules(engine, offer, Top, s, inputs);
  }
}
