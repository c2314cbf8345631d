/** What a client makes of the replies of any server, the names of events and fields written out: errors, replies
    that do not belong to the operation, speech and transcripts in whatever company they come. */
module ClientLaws {
  import opened Bytes
  import opened JsonNumber
  import opened Json
  import opened Wire
  import opened Audio
  import opened Protocol
  import opened Catalog
  import opened ServerMachine
  import opened ClientMachine
  import opened Fidelity
  import opened ServerLaws

  /** How a client waits behind replies that do not complete its operation. */
  function After(r: Receiver, events: seq<Event>): (next: Receiver)
    requires Collected(r, events) == None
    decreases |events|
  {
    if events == [] then r else After(Receive(r, events[0]).receiver, events[1..])
  }

  lemma {:induction false} CollectedAppend(r: Receiver, a: seq<Event>, b: seq<Event>)
    requires Collected(r, a) == None
    ensures Collected(r, a + b) == Collected(After(r, a), b)
    decreases |a|
  {
    hide Receive;
    if a == [] {
      Nothing(b);
    } else {
      assert (a + b)[0] == a[0] && (a + b)[1..] == a[1..] + b;
      CollectedAppend(Receive(r, a[0]).receiver, a[1..], b);
    }
  }

  /** The waiting client waits for the same kind of reply all along. */
  lemma {:induction false} SameWait(r: Receiver, events: seq<Event>)
    requires Collected(r, events) == None
    ensures After(r, events).AwaitInfo? == r.AwaitInfo? && After(r, events).AwaitSpeech? == r.AwaitSpeech?
    ensures After(r, events).AwaitText? == r.AwaitText? && After(r, events).AwaitFinal? == r.AwaitFinal?
    decreases |events|
  {
    hide FormatOf, ToSamples, InfoOf;
    if events != [] {
      SameWait(Receive(r, events[0]).receiver, events[1..]);
    }
  }

  /** An error event ends every operation, however far its replies have come. */
  lemma ErrorEndsOperation(op: Op, before: seq<Event>, e: Event, rest: seq<Event>)
    requires Collected(Begin(op), before) == None && e.typ == Ascii("error")
    ensures Collected(Begin(op), before + ([e] + rest)) == Some((ProtocolError, rest))
  {
    hide Collected, InfoOf, FormatOf, ToSamples;
    KindOfType(ErrorKind);
    CollectedAppend(Begin(op), before, [e] + rest);
    CollectFirst(After(Begin(op), before), e, rest);
  }

  /** The types of the replies an operation looks at. */
  predicate Concerns(op: Op, e: Event) {
    match op
    case DescribeOp => true
    case SynthesizeOp(_, _) =>
      e.typ == Ascii("audio-start") || e.typ == Ascii("audio-chunk") || e.typ == Ascii("audio-stop")
      || e.typ == Ascii("error")
    case _ => e.typ == Ascii("transcript") || e.typ == Ascii("error")
  }

  /** All other replies are passed over, wherever they come. */
  lemma ForeignReplyIsPassedOver(op: Op, before: seq<Event>, e: Event, rest: seq<Event>)
    requires Collected(Begin(op), before) == None && !Concerns(op, e)
    ensures Collected(Begin(op), before + ([e] + rest)) == Collected(Begin(op), before + rest)
  {
    hide Collected, InfoOf, FormatOf, ToSamples;
    var r := After(Begin(op), before);
    CollectedAppend(Begin(op), before, [e] + rest);
    CollectedAppend(Begin(op), before, rest);
    SameWait(Begin(op), before);
    CollectFirst(r, e, rest);
    assert Receive(r, e) == More(r);
  }

  /** Only an info event completes a describe well. */
  lemma DescribeReply(e: Event, rest: seq<Event>)
    ensures Collected(Begin(DescribeOp), [e] + rest)
            == Some((if e.typ == Ascii("info") then Described(InfoOf(e.data)) else ProtocolError, rest))
  {
    hide Collected, InfoOf;
    KindOfType(Info);
    CollectFirst(AwaitInfo, e, rest);
  }

  // -------- the data of an info event

  /** The string under a name of an object, None when there is none. */
  function StringUnder(v: Value, name: string): Option<seq<byte>> {
    match v
    case Object(members) =>
      (match Lookup(members, Ascii(name)) case Some(String(t)) => Some(t) case _ => None)
    case _ => None
  }

  /** The items of the array under a name of an object, none when there is no array. */
  function ItemsUnder(v: Value, name: string): seq<Value> {
    match v
    case Object(members) =>
      (match Lookup(members, Ascii(name)) case Some(Array(items)) => items case _ => [])
    case _ => []
  }

  predicate SeesVoice(v: Value, seen: VoiceInfo) {
    && seen.name == StringUnder(v, "name") && seen.description == StringUnder(v, "description")
    && |seen.languages| == |ItemsUnder(v, "languages")|
    && (forall i :: 0 <= i < |seen.languages| ==>
          seen.languages[i] == match ItemsUnder(v, "languages")[i] case String(t) => Some(t) case _ => None)
    && |seen.speakers| == |ItemsUnder(v, "speakers")|
    && forall i :: 0 <= i < |seen.speakers| ==> seen.speakers[i] == StringUnder(ItemsUnder(v, "speakers")[i], "name")
  }

  /** The strings among a model's languages, moved to the front. */
  predicate SeesModel(v: Value, seen: ModelInfo) {
    var items := ItemsUnder(v, "languages");
    && seen.name == StringUnder(v, "name") && seen.description == StringUnder(v, "description")
    && |seen.languages| == |items|
    && forall i :: 0 <= i < |items| && items[i].String? ==>
         StringCount(items[..i]) < |items| && seen.languages[StringCount(items[..i])] == Some(items[i].text)
  }

  predicate SeesTtsEngine(v: Value, seen: TtsInfo) {
    && seen.name == StringUnder(v, "name") && seen.version == StringUnder(v, "version")
    && |seen.voices| == |ItemsUnder(v, "voices")|
    && forall i :: 0 <= i < |seen.voices| ==> SeesVoice(ItemsUnder(v, "voices")[i], seen.voices[i])
  }

  predicate SeesAsrEngine(v: Value, seen: AsrInfo) {
    && seen.name == StringUnder(v, "name") && seen.version == StringUnder(v, "version")
    && |seen.models| == |ItemsUnder(v, "models")|
    && forall i :: 0 <= i < |seen.models| ==> SeesModel(ItemsUnder(v, "models")[i], seen.models[i])
  }

  /** What a client reads out of any data: an engine for each item under "tts" and "asr", with what it says about
      itself under the names of the protocol, and nothing where a value has another type. */
  lemma AnyInfo(v: Value)
    ensures InfoOf(None) == ServerInfo([], [])
    ensures var info := InfoOf(Some(v));
            && |info.tts| == |ItemsUnder(v, "tts")| && |info.asr| == |ItemsUnder(v, "asr")|
            && (forall i :: 0 <= i < |info.tts| ==> SeesTtsEngine(ItemsUnder(v, "tts")[i], info.tts[i]))
            && forall i :: 0 <= i < |info.asr| ==> SeesAsrEngine(ItemsUnder(v, "asr")[i], info.asr[i])
  {
    hide TtsOf, AsrOf, SeesTtsEngine, SeesAsrEngine;
    forall w ensures SeesTtsEngine(w, TtsOf(w)) && SeesAsrEngine(w, AsrOf(w)) {
      AnyTts(w);
      AnyAsr(w);
    }
  }

  lemma AnyTts(v: Value)
    ensures SeesTtsEngine(v, TtsOf(v))
  {
    hide VoiceOf, SeesVoice;
    forall w ensures SeesVoice(w, VoiceOf(w)) {
      AnyVoice(w);
    }
  }

  lemma AnyAsr(v: Value)
    ensures SeesAsrEngine(v, AsrOf(v))
  {
    hide ModelOf, SeesModel;
    forall w ensures SeesModel(w, ModelOf(w)) {
      AnyModel(w);
    }
  }

  lemma AnyVoice(v: Value)
    ensures SeesVoice(v, VoiceOf(v))
  {
  }

  lemma AnyModel(v: Value)
    ensures SeesModel(v, ModelOf(v))
  {
    hide Packed, StringsOf, StringCount;
    var items := ItemsUnder(v, "languages");
    forall i | 0 <= i < |items| && items[i].String?
      ensures StringCount(items[..i]) < |items| && Packed(items)[StringCount(items[..i])] == Some(items[i].text)
    {
      StringsMoveToTheFront(items, i);
    }
  }

  // -------- requests

  lemma SimpleRequests(text: seq<byte>, voice: Option<seq<byte>>)
    ensures Requests(DescribeOp) == [Event(Ascii("describe"), None, [])]
    ensures Requests(SynthesizeOp(text, voice)) == [SynthesizeEvent(text, voice)]
    ensures SynthesizeEvent(text, voice).typ == Ascii("synthesize") && SynthesizeEvent(text, voice).payload == []
  {
  }

  /** A batch goes out as its opening, an audio-start without a timestamp, ceil(N / 1024) chunks in order, 1024
      samples each but for the last, and an audio-stop. */
  lemma BatchShape(op: Op)
    requires op.TranscribeOp?
    ensures var r, n := Requests(op), (|op.pcm| + 1023) / 1024;
            && |r| == n + 3 && r[0].typ == Ascii("transcribe") && r[0].payload == []
            && r[1] == StartEvent(op.format, false) && r[n + 2] == Event(Ascii("audio-stop"), None, [])
            && forall i :: 0 <= i < n ==> IsPiece(r[i + 2], op.format, op.pcm, 1024 * i, 1024)
  {
    hide ChunkEvent, StartEvent, Chunks, ChunkEvents, LanguageFields;
    ChunkCount(op.pcm, 1024);
    ChunkEventsByIndex(op.format, Chunks(op.pcm, 1024));
    PiecesByIndex(op.format, op.pcm, 1024);
  }

  /** A stream goes out as its opening, an audio-start, its chunks as they are, and both stops. */
  lemma StreamShape(op: Op)
    requires op.StreamOp?
    ensures var r, n := Requests(op), |op.chunks|;
            && |r| == n + 4 && r[0].typ == Ascii("transcribe-start") && r[0].payload == []
            && r[1] == StartEvent(op.format, false)
            && r[n + 2] == Event(Ascii("audio-stop"), None, []) && r[n + 3] == Event(Ascii("transcribe-stop"), None, [])
            && forall i :: 0 <= i < n ==> r[i + 2] == ChunkEvent(op.format, op.chunks[i])
  {
    hide ChunkEvent, StartEvent, ChunkEvents, LanguageFields;
    ChunkEventsByIndex(op.format, op.chunks);
  }

  // -------- speech

  /** Audio that comes before its format is no speech; a stop that comes first ends an empty one. */
  lemma BeforeStart(op: Op, e: Event, rest: seq<Event>)
    requires op.SynthesizeOp?
    ensures e.typ == Ascii("audio-chunk") ==> Collected(Begin(op), [e] + rest) == Some((ProtocolError, rest))
    ensures e.typ == Ascii("audio-stop") ==>
      Collected(Begin(op), [e] + rest) == Some((Spoken([], Format(0, 0, 0)), rest))
  {
    hide Collected, ToSamples;
    KindOfType(AudioChunk);
    KindOfType(AudioStop);
    CollectFirst(Begin(op), e, rest);
  }

  /** Another audio-start replaces the fields of the format it gives; what has been heard is kept. */
  lemma AnotherStart(r: Receiver, e: Event, rest: seq<Event>, f: Format)
    requires r.AwaitSpeech? && e.typ == Ascii("audio-start")
    requires Counts(e, "rate", f.rate, r.format.rate) && Counts(e, "width", f.width, r.format.width)
    requires Counts(e, "channels", f.channels, r.format.channels)
    ensures Collected(r, [e] + rest) == Collected(AwaitSpeech(true, f, r.pcm), rest)
  {
    hide Collected, Counts;
    KindOfType(AudioStart);
    CountedInt(e, "rate", f.rate, r.format.rate);
    CountedInt(e, "width", f.width, r.format.width);
    CountedInt(e, "channels", f.channels, r.format.channels);
    CollectFirst(r, e, rest);
  }

  /** `f` is the format of an audio-start, field by field over zeros. */
  predicate Starts(e: Event, f: Format) {
    e.typ == Ascii("audio-start")
    && Counts(e, "rate", f.rate, 0) && Counts(e, "width", f.width, 0) && Counts(e, "channels", f.channels, 0)
  }

  predicate Quiet(events: seq<Event>) {
    NoneIs(events, "audio-start") && NoneIs(events, "audio-stop") && NoneIs(events, "error")
  }

  lemma {:induction false} SpeechMiddle(f: Format, pcm: seq<Sample>, middle: seq<Event>, rest: seq<Event>)
    requires Quiet(middle)
    ensures Collected(AwaitSpeech(true, f, pcm), middle + rest)
            == Collected(AwaitSpeech(true, f, pcm + Heard(middle)), rest)
    decreases |middle|
  {
    hide ToSamples, FormatOf, Collected;
    if middle == [] {
      Nothing(pcm);
      Nothing(rest);
    } else {
      var e := middle[0];
      KindOfType(AudioChunk);
      Cons(middle);
      Associate([e], middle[1..], rest);
      CollectFirst(AwaitSpeech(true, f, pcm), e, middle[1..] + rest);
      var heard := if e.typ == Ascii("audio-chunk") then ToSamples(e.payload) else [];
      Nothing(pcm);
      assert Receive(AwaitSpeech(true, f, pcm), e) == More(AwaitSpeech(true, f, pcm + heard));
      SpeechMiddle(f, pcm + heard, middle[1..], rest);
      Associate(pcm, heard, Heard(middle[1..]));
    }
  }

  /** The speech of any server: the format of its start and all samples up to its stop. */
  lemma AnySpeech(op: Op, start: Event, middle: seq<Event>, stop: Event, rest: seq<Event>, f: Format)
    requires op.SynthesizeOp? && Starts(start, f) && Quiet(middle) && stop.typ == Ascii("audio-stop")
    ensures Collected(Begin(op), [start] + (middle + ([stop] + rest))) == Some((Spoken(Heard(middle), f), rest))
  {
    hide Collected, Heard, Counts;
    KindOfType(AudioStart);
    KindOfType(AudioStop);
    CountedInt(start, "rate", f.rate, 0);
    CountedInt(start, "width", f.width, 0);
    CountedInt(start, "channels", f.channels, 0);
    CollectFirst(Begin(op), start, middle + ([stop] + rest));
    SpeechMiddle(f, [], middle, [stop] + rest);
    Nothing(Heard(middle));
    CollectFirst(AwaitSpeech(true, f, Heard(middle)), stop, rest);
  }

  // -------- transcripts

  /** The text of a transcript, None when it has no string there. */
  function TextIn(e: Event): (t: Option<seq<byte>>)
    ensures Names(e, "text", t)
  {
    match e.data
    case Some(Object(members)) => (match Lookup(members, Ascii("text")) case Some(String(x)) => Some(x) case _ => None)
    case _ => None
  }

  /** A batch: the first transcript decides, and one without a text is an error. */
  lemma AnyTranscript(op: Op, e: Event, rest: seq<Event>)
    requires op.TranscribeOp? && e.typ == Ascii("transcript")
    ensures Collected(Begin(op), [e] + rest)
            == Some((if TextIn(e) == None then ProtocolError else Said(TextIn(e)), rest))
  {
    hide Collected;
    KindOfType(Transcript);
    CollectFirst(Begin(op), e, rest);
    assert AsText(Field(e, TEXT)) == TextIn(e);
  }

  /** A transcript that leaves a streaming client waiting: one without data, or one that says it is partial. */
  predicate Unfinished(e: Event) {
    e.typ == Ascii("transcript")
    && (e.data.Some? ==> e.data.value.Object? && Lookup(e.data.value.members, Ascii("is_partial")) == Some(True))
  }

  predicate Concludes(e: Event) {
    e.typ == Ascii("transcript") && e.data.Some?
    && (e.data.value.Object? ==> Lookup(e.data.value.members, Ascii("is_partial")) != Some(True))
  }

  /** The last text among transcripts, `before` when none of them has one. */
  function LastText(before: Option<seq<byte>>, events: seq<Event>): Option<seq<byte>> {
    if events == [] then before
    else if TextIn(events[|events| - 1]).Some? then TextIn(events[|events| - 1])
    else LastText(before, events[..|events| - 1])
  }

  lemma {:induction false} LastTextOfMore(before: Option<seq<byte>>, e: Event, rest: seq<Event>)
    ensures LastText(before, [e] + rest) == LastText(if TextIn(e).Some? then TextIn(e) else before, rest)
    decreases |rest|
  {
    var all := [e] + rest;
    if rest == [] {
      assert all[..0] == [];
    } else {
      assert all[..|all| - 1] == [e] + rest[..|rest| - 1];
      LastTextOfMore(before, e, rest[..|rest| - 1]);
    }
  }

  /** A stream: the first transcript that has data and is not partial ends it, and the last text counts. */
  lemma {:induction false} AnyTranscripts(last: Option<seq<byte>>, events: seq<Event>, e: Event, rest: seq<Event>)
    requires (forall i :: 0 <= i < |events| ==> Unfinished(events[i])) && Concludes(e)
    ensures Collected(AwaitFinal(last), events + ([e] + rest)) == Some((Said(LastText(last, events + [e])), rest))
    decreases |events|
  {
    hide Collected, LastText;
    KindOfType(Transcript);
    if events == [] {
      Nothing([e]);
      Nothing([e] + rest);
      assert AsText(Field(e, TEXT)) == TextIn(e);
      CollectFirst(AwaitFinal(last), e, rest);
      LastTextOfMore(last, e, []);
      NoText(if TextIn(e).Some? then TextIn(e) else last);
    } else {
      var first, next := events[0], if TextIn(events[0]).Some? then TextIn(events[0]) else last;
      Cons(events);
      Associate([first], events[1..], [e] + rest);
      Associate([first], events[1..], [e]);
      CollectFirst(AwaitFinal(last), first, events[1..] + ([e] + rest));
      assert AsText(Field(first, TEXT)) == TextIn(first);
      assert Receive(AwaitFinal(last), first) == More(AwaitFinal(next));
      AnyTranscripts(next, events[1..], e, rest);
      LastTextOfMore(last, first, events[1..] + [e]);
    }
  }

  lemma NoText(before: Option<seq<byte>>)
    ensures LastText(before, []) == before
  {
  }
}
