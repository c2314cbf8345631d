/** The events of the protocol and the fields both sides read out of them. */
module Protocol {
  import opened Bytes
  import opened JsonNumber
  import opened Json
  import opened Wire
  import opened Audio

  type Int32 = x: int | INT_MIN <= x <= INT_MAX

  /** A C string without its terminator. */
  type Text = s: seq<byte> | NoNul(s) witness []

  datatype Format = Format(rate: Int32, width: Int32, channels: Int32)

  const DESCRIBE: seq<byte> := Ascii("describe")
  const INFO: seq<byte> := Ascii("info")
  const SYNTHESIZE: seq<byte> := Ascii("synthesize")
  const AUDIO_START: seq<byte> := Ascii("audio-start")
  const AUDIO_CHUNK: seq<byte> := Ascii("audio-chunk")
  const AUDIO_STOP: seq<byte> := Ascii("audio-stop")
  const TRANSCRIBE: seq<byte> := Ascii("transcribe")
  const TRANSCRIPT: seq<byte> := Ascii("transcript")
  const TRANSCRIBE_START: seq<byte> := Ascii("transcribe-start")
  const TRANSCRIBE_STOP: seq<byte> := Ascii("transcribe-stop")
  const ERROR_TYPE: seq<byte> := Ascii("error")

  const TEXT: seq<byte> := Ascii("text")
  const VOICE: seq<byte> := Ascii("voice")
  const NAME: seq<byte> := Ascii("name")
  const SPEAKER: seq<byte> := Ascii("speaker")
  const LANGUAGE: seq<byte> := Ascii("language")
  const RATE: seq<byte> := Ascii("rate")
  const WIDTH: seq<byte> := Ascii("width")
  const CHANNELS: seq<byte> := Ascii("channels")
  const TIMESTAMP: seq<byte> := Ascii("timestamp")
  const IS_PARTIAL: seq<byte> := Ascii("is_partial")

  /** What each kind of event is to the dispatch chains of both sides. */
  datatype Kind =
    | Describe | Info | Synthesize | AudioStart | AudioChunk | AudioStop
    | Transcribe | Transcript | TranscribeStart | TranscribeStop | ErrorKind | Other

  /** The strcmp chains, as one classification. */
  function KindOf(typ: seq<byte>): Kind {
    if typ == DESCRIBE then Describe
    else if typ == INFO then Info
    else if typ == SYNTHESIZE then Synthesize
    else if typ == AUDIO_START then AudioStart
    else if typ == AUDIO_CHUNK then AudioChunk
    else if typ == AUDIO_STOP then AudioStop
    else if typ == TRANSCRIBE then Transcribe
    else if typ == TRANSCRIPT then Transcript
    else if typ == TRANSCRIBE_START then TranscribeStart
    else if typ == TRANSCRIBE_STOP then TranscribeStop
    else if typ == ERROR_TYPE then ErrorKind
    else Other
  }

  function TypeOf(k: Kind): seq<byte>
    requires k != Other
  {
    match k
    case Describe => DESCRIBE
    case Info => INFO
    case Synthesize => SYNTHESIZE
    case AudioStart => AUDIO_START
    case AudioChunk => AUDIO_CHUNK
    case AudioStop => AUDIO_STOP
    case Transcribe => TRANSCRIBE
    case Transcript => TRANSCRIPT
    case TranscribeStart => TRANSCRIBE_START
    case TranscribeStop => TRANSCRIBE_STOP
    case ErrorKind => ERROR_TYPE
  }

  /** No two kinds share a type string. */
  lemma KindOfType(k: Kind)
    requires k != Other
    ensures KindOf(TypeOf(k)) == k
  {
    assert |DESCRIBE| == 8 && |INFO| == 4 && |SYNTHESIZE| == 10 && |AUDIO_START| == 11 && |AUDIO_CHUNK| == 11;
    assert |AUDIO_STOP| == 10 && |TRANSCRIBE| == 10 && |TRANSCRIPT| == 10 && |TRANSCRIBE_START| == 16;
    assert |TRANSCRIBE_STOP| == 15 && |ERROR_TYPE| == 5;
    assert AUDIO_START[6] != AUDIO_CHUNK[6];
    assert SYNTHESIZE[0] != AUDIO_STOP[0] && SYNTHESIZE[0] != TRANSCRIBE[0] && SYNTHESIZE[0] != TRANSCRIPT[0];
    assert AUDIO_STOP[0] != TRANSCRIBE[0] && AUDIO_STOP[0] != TRANSCRIPT[0] && TRANSCRIBE[8] != TRANSCRIPT[8];
  }

  // -------- reading fields

  function Field(e: Event, name: seq<byte>): Option<Value> {
    if e.data.Some? then Get(e.data.value, name) else None
  }

  function AsText(v: Option<Value>): Option<seq<byte>> {
    match v
    case Some(String(t)) => Some(t)
    case _ => None
  }

  /** A number as an `int`; for numbers outside its range, where the conversion in C is undefined, the bound. */
  function AsInt(v: Option<Value>, otherwise: Int32): Int32 {
    match v
    case Some(Number(d)) => Saturate(d)
    case _ => otherwise
  }

  /** The format in an audio-start, field by field over a default. */
  function FormatOf(e: Event, otherwise: Format): Format {
    Format(AsInt(Field(e, RATE), otherwise.rate), AsInt(Field(e, WIDTH), otherwise.width),
           AsInt(Field(e, CHANNELS), otherwise.channels))
  }

  // -------- building events

  function Fields(members: seq<Member>): Option<Value> {
    Some(Object(members))
  }

  function FormatFields(f: Format): seq<Member> {
    [Member(RATE, Number(f.rate as real)), Member(WIDTH, Number(f.width as real)),
        Member(CHANNELS, Number(f.channels as real))]
  }

  /** An event that is a type and nothing else. */
  function Bare(k: Kind): Event
    requires k != Other
  {
    Event(TypeOf(k), None, [])
  }

  /** The audio-start of a client; the server adds a timestamp. */
  function StartEvent(f: Format, stamped: bool): Event {
    Event(AUDIO_START, Fields(FormatFields(f) + if stamped then [Member(TIMESTAMP, Number(0.0))] else []), [])
  }

  function ChunkEvent(f: Format, pcm: seq<Sample>): Event {
    Event(AUDIO_CHUNK, Fields(FormatFields(f)), ToBytes(pcm))
  }

  function TranscriptEvent(text: seq<byte>, partial: bool): Event {
    Event(TRANSCRIPT, Fields([Member(TEXT, String(text))] + if partial then [Member(IS_PARTIAL, True)] else []), [])
  }

  lemma FormatComesBack(f: Format, stamped: bool, otherwise: Format)
    ensures FormatOf(StartEvent(f, stamped), otherwise) == f
  {
    var extra := if stamped then [Member(TIMESTAMP, Number(0.0))] else [];
    var a, b, c := Member(RATE, Number(f.rate as real)), Member(WIDTH, Number(f.width as real)),
                   Member(CHANNELS, Number(f.channels as real));
    var all := FormatFields(f) + extra;
    assert all[0] == a && all[1] == b && all[2] == c;
    assert all[1..][0] == b && all[1..][1..][0] == c;
    assert |RATE| == 4 && |WIDTH| == 5 && |CHANNELS| == 8;
    assert Lookup(all, RATE) == Some(a.value);
    assert Lookup(all, WIDTH) == Lookup(all[1..], WIDTH) == Some(b.value);
    assert Lookup(all, CHANNELS) == Lookup(all[1..], CHANNELS) == Lookup(all[1..][1..], CHANNELS) == Some(c.value);
    IntegersAreInt32(f.rate);
    IntegersAreInt32(f.width);
    IntegersAreInt32(f.channels);
  }

  lemma TranscriptComesBack(text: seq<byte>, partial: bool)
    ensures var e := TranscriptEvent(text, partial);
            AsText(Field(e, TEXT)) == Some(text) && (Field(e, IS_PARTIAL) == Some(True) <==> partial)
  {
    assert |TEXT| == 4 && |IS_PARTIAL| == 10;
    var all := [Member(TEXT, String(text))] + if partial then [Member(IS_PARTIAL, True)] else [];
    assert all[0].key == TEXT;
    assert Lookup(all, IS_PARTIAL) == Lookup(all[1..], IS_PARTIAL);
    if partial {
      assert all[1..][0] == Member(IS_PARTIAL, True);
    } else {
      assert all[1..] == [];
    }
  }

  lemma ChunkComesBack(f: Format, pcm: seq<Sample>)
    ensures ToSamples(ChunkEvent(f, pcm).payload) == pcm
  {
    SamplesSurvive(pcm, []);
    assert ToBytes(pcm) + [] == ToBytes(pcm);
  }

  // -------- the events are within the codec's limits

  /** Within what the writer prints and the reader parses. */
  predicate Travels(e: Event) {
    Writable(e) && Readable(e)
  }

  /** Members that print, with at most `k` containers inside one another. */
  predicate Light(members: seq<Member>, k: nat) {
    MembersPrintable(members) && MembersNest(members, k)
  }

  lemma LightCons(m: Member, rest: seq<Member>, k: nat)
    requires NoNul(m.key) && Printable(m.value) && NestsWithin(m.value, k) && Light(rest, k)
    ensures Light([m] + rest, k)
  {
    assert ([m] + rest)[1..] == rest;
  }

  lemma FieldsTravel(typ: seq<byte>, members: seq<Member>, payload: seq<byte>)
    requires NoNul(typ) && Light(members, 0) && |payload| <= INT_MAX
    ensures Travels(Event(typ, Fields(members), payload))
  {
    NestsMore(Object(members), 1, NESTING_LIMIT);
  }

  lemma TypesAreText(k: Kind)
    requires k != Other
    ensures NoNul(TypeOf(k))
  {
    match k
    case Describe => AsciiHasNoNul("describe");
    case Info => AsciiHasNoNul("info");
    case Synthesize => AsciiHasNoNul("synthesize");
    case AudioStart => AsciiHasNoNul("audio-start");
    case AudioChunk => AsciiHasNoNul("audio-chunk");
    case AudioStop => AsciiHasNoNul("audio-stop");
    case Transcribe => AsciiHasNoNul("transcribe");
    case Transcript => AsciiHasNoNul("transcript");
    case TranscribeStart => AsciiHasNoNul("transcribe-start");
    case TranscribeStop => AsciiHasNoNul("transcribe-stop");
    case ErrorKind => AsciiHasNoNul("error");
  }

  lemma BareTravels(k: Kind)
    requires k != Other
    ensures Travels(Bare(k))
  {
    TypesAreText(k);
  }

  /** The fields of a format, with more behind them. */
  lemma FormatIsFlat(f: Format, rest: seq<Member>)
    requires Light(rest, 0)
    ensures Light(FormatFields(f) + rest, 0)
  {
    AsciiHasNoNul("rate");
    AsciiHasNoNul("width");
    AsciiHasNoNul("channels");
    IntegersAreInt32(f.rate);
    IntegersAreInt32(f.width);
    IntegersAreInt32(f.channels);
    var c := [Member(CHANNELS, Number(f.channels as real))] + rest;
    var b := [Member(WIDTH, Number(f.width as real))] + c;
    LightCons(Member(CHANNELS, Number(f.channels as real)), rest, 0);
    LightCons(Member(WIDTH, Number(f.width as real)), c, 0);
    LightCons(Member(RATE, Number(f.rate as real)), b, 0);
    assert FormatFields(f) + rest == [Member(RATE, Number(f.rate as real))] + b;
  }

  lemma StartTravels(f: Format, stamped: bool)
    ensures Travels(StartEvent(f, stamped))
  {
    TypesAreText(AudioStart);
    var extra := if stamped then [Member(TIMESTAMP, Number(0.0))] else [];
    assert Light([], 0);
    if stamped {
      AsciiHasNoNul("timestamp");
      IntegersAreInt32(0);
      LightCons(Member(TIMESTAMP, Number(0.0)), [], 0);
      assert extra == [Member(TIMESTAMP, Number(0.0))] + [];
    }
    FormatIsFlat(f, extra);
    FieldsTravel(AUDIO_START, FormatFields(f) + extra, []);
  }

  lemma ChunkTravels(f: Format, pcm: seq<Sample>)
    requires 2 * |pcm| <= INT_MAX
    ensures Travels(ChunkEvent(f, pcm))
  {
    TypesAreText(AudioChunk);
    FormatIsFlat(f, []);
    assert FormatFields(f) + [] == FormatFields(f);
    FieldsTravel(AUDIO_CHUNK, FormatFields(f), ToBytes(pcm));
  }

  lemma TranscriptTravels(text: Text, partial: bool)
    ensures Travels(TranscriptEvent(text, partial))
  {
    TypesAreText(Transcript);
    AsciiHasNoNul("text");
    var extra := if partial then [Member(IS_PARTIAL, True)] else [];
    assert Light([], 0);
    if partial {
      AsciiHasNoNul("is_partial");
      LightCons(Member(IS_PARTIAL, True), [], 0);
      assert extra == [Member(IS_PARTIAL, True)] + [];
    }
    LightCons(Member(TEXT, String(text)), extra, 0);
    FieldsTravel(TRANSCRIPT, [Member(TEXT, String(text))] + extra, []);
  }
}
