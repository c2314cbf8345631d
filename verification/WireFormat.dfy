/** The texts on the wire: headers and event data, name by name and value by value. */
module WireFormat {
  import opened Bytes
  import opened JsonNumber
  import opened JsonString
  import opened Json
  import opened JsonParse
  import opened Wire
  import opened Audio
  import opened Protocol
  import opened Catalog
  import opened ClientMachine

  /** A name and the text of its value. */
  datatype Entry = Entry(name: string, text: seq<byte>)

  /** `{"name":text,"name":text}` */
  function Braces(entries: seq<Entry>): seq<byte> {
    Ascii("{") + Joined(entries) + Ascii("}")
  }

  function Joined(entries: seq<Entry>): seq<byte> {
    if entries == [] then []
    else Ascii("\"" + entries[0].name + "\":") + entries[0].text
         + (if |entries| == 1 then [] else Ascii(",") + Joined(entries[1..]))
  }

  /** `[text,text]` */
  function Brackets(texts: seq<seq<byte>>): seq<byte> {
    Ascii("[") + Listed(texts) + Ascii("]")
  }

  function Listed(texts: seq<seq<byte>>): seq<byte> {
    if texts == [] then []
    else texts[0] + (if |texts| == 1 then [] else Ascii(",") + Listed(texts[1..]))
  }

  // -------- what the printer makes of names and values

  /** Printable ASCII without quotes and backslashes. */
  predicate Simple(s: string) {
    forall i :: 0 <= i < |s| ==> ' ' <= s[i] <= '~' && s[i] != '\"' && s[i] != '\\'
  }

  lemma AsciiAppend(a: string, b: string)
    ensures Ascii(a + b) == Ascii(a) + Ascii(b)
  {
  }

  lemma {:induction false} NothingToEscape(s: seq<byte>)
    requires forall i :: 0 <= i < |s| ==> 32 <= s[i] && s[i] != QUOTE && s[i] != BACKSLASH
    ensures Escaped(s) == s
  {
    if s != [] {
      NothingToEscape(s[1..]);
      assert EscapeByte(s[0]) == [s[0]];
    }
  }

  lemma InQuotes(s: string)
    requires Simple(s)
    ensures Quoted(Ascii(s)) == Ascii("\"" + s + "\"")
  {
    NothingToEscape(Ascii(s));
    AsciiAppend("\"", s);
    AsciiAppend("\"" + s, "\"");
    assert Ascii("\"") == [QUOTE];
  }

  /** The member prints as the entry, inside `depth` containers. */
  predicate Prints(m: Member, e: Entry, depth: nat) {
    Simple(e.name) && m.key == Ascii(e.name) && Render(m.value, false, depth) == e.text
  }

  predicate AllPrint(members: seq<Member>, entries: seq<Entry>, depth: nat) {
    |members| == |entries| && forall i :: 0 <= i < |members| ==> Prints(members[i], entries[i], depth)
  }

  lemma OneMember(m: Member, e: Entry, last: bool, depth: nat)
    requires Prints(m, e, depth)
    ensures RenderMember(m, last, false, depth)
            == Ascii("\"" + e.name + "\":") + e.text + (if last then [] else Ascii(","))
  {
    hide Quoted, Render;
    InQuotes(e.name);
    AsciiAppend("\"" + e.name + "\"", ":");
    assert Ascii(":") == [COLON] && Ascii(",") == [COMMA];
  }

  lemma {:induction false} MembersPrint(members: seq<Member>, entries: seq<Entry>, depth: nat)
    requires AllPrint(members, entries, depth)
    ensures RenderMembers(members, false, depth) == Joined(entries)
  {
    hide RenderMember, Ascii, Prints;
    if members != [] {
      OneMember(members[0], entries[0], |members| == 1, depth);
      MembersPrint(members[1..], entries[1..], depth);
      Associate(Ascii("\"" + entries[0].name + "\":") + entries[0].text, Ascii(","), Joined(entries[1..]));
    }
  }

  /** An object prints as its entries in braces. */
  lemma ObjectPrints(members: seq<Member>, entries: seq<Entry>, depth: nat)
    requires AllPrint(members, entries, depth + 1)
    ensures Render(Object(members), false, depth) == Braces(entries)
  {
    hide RenderMembers, Joined, Prints;
    MembersPrint(members, entries, depth + 1);
    assert Ascii("{") == [LBRACE] && Ascii("}") == [RBRACE];
  }

  lemma {:induction false} ItemsPrint(items: seq<Value>, texts: seq<seq<byte>>, depth: nat)
    requires |items| == |texts| && forall i :: 0 <= i < |items| ==> Render(items[i], false, depth) == texts[i]
    ensures RenderItems(items, false, depth) == Listed(texts)
  {
    hide Render, Ascii;
    if items != [] {
      ItemsPrint(items[1..], texts[1..], depth);
      assert Ascii(",") == [COMMA] by { Comma(); }
      Associate(texts[0], Ascii(","), Listed(texts[1..]));
    }
  }

  lemma Comma()
    ensures Ascii(",") == [COMMA]
  {
  }

  /** An array prints as its items in brackets. */
  lemma ArrayPrints(items: seq<Value>, texts: seq<seq<byte>>, depth: nat)
    requires |items| == |texts| && forall i :: 0 <= i < |items| ==> Render(items[i], false, depth + 1) == texts[i]
    ensures Render(Array(items), false, depth) == Brackets(texts)
  {
    hide RenderItems, Listed;
    ItemsPrint(items, texts, depth + 1);
    assert Ascii("[") == [LBRACKET] && Ascii("]") == [RBRACKET];
  }

  // -------- the header

  function LengthEntry(name: string, n: nat): seq<Entry> {
    if n == 0 then [] else [Entry(name, Decimal(n))]
  }

  lemma LengthPrints(name: string, n: nat)
    requires Simple(name) && n <= INT_MAX
    ensures AllPrint(LengthField(Ascii(name), n), LengthEntry(name, n), 1)
  {
    IntegersAreInt32(n);
  }

  lemma AppendPrints(a: seq<Member>, x: seq<Entry>, b: seq<Member>, y: seq<Entry>, depth: nat)
    requires AllPrint(a, x, depth) && AllPrint(b, y, depth)
    ensures AllPrint(a + b, x + y, depth)
  {
    hide Prints;
  }

  lemma HeaderIsText(e: Event)
    requires |DataText(e)| <= INT_MAX && |e.payload| <= INT_MAX
    ensures HeaderText(e)
            == Braces([Entry("type", Quoted(e.typ)), Entry("version", Ascii("\"0.1.0\""))]
                      + LengthEntry("data_length", |DataText(e)|) + LengthEntry("payload_length", |e.payload|))
  {
    hide Quoted, Braces, LengthField, LengthEntry, Render;
    var d, p := |DataText(e)|, |e.payload|;
    var members := [Member(TYPE, String(e.typ)), Member(VERSION, String(VERSION_STRING))];
    var entries := [Entry("type", Quoted(e.typ)), Entry("version", Ascii("\"0.1.0\""))];
    FixedPartPrints(e.typ);
    LengthPrints("data_length", d);
    LengthPrints("payload_length", p);
    var m, x := members + LengthField(DATA_LENGTH, d), entries + LengthEntry("data_length", d);
    AppendPrints(members, entries, LengthField(DATA_LENGTH, d), LengthEntry("data_length", d), 1);
    AppendPrints(m, x, LengthField(PAYLOAD_LENGTH, p), LengthEntry("payload_length", p), 1);
    ObjectPrints(m + LengthField(PAYLOAD_LENGTH, p), x + LengthEntry("payload_length", p), 0);
  }

  /** A frame: the header with type, version and the length of each block that is not empty, a newline, the data,
      the payload. */
  lemma FrameIsText(e: Event)
    requires |DataText(e)| <= INT_MAX && |e.payload| <= INT_MAX
    ensures Frame(e)
            == Braces([Entry("type", Quoted(e.typ)), Entry("version", Ascii("\"0.1.0\""))]
                      + LengthEntry("data_length", |DataText(e)|) + LengthEntry("payload_length", |e.payload|))
               + Ascii("\n") + DataText(e) + e.payload
  {
    hide Braces, LengthEntry, Quoted;
    HeaderIsText(e);
    assert Ascii("\n") == [LF];
  }

  lemma FixedPartPrints(typ: seq<byte>)
    ensures AllPrint([Member(TYPE, String(typ)), Member(VERSION, String(VERSION_STRING))],
                     [Entry("type", Quoted(typ)), Entry("version", Ascii("\"0.1.0\""))], 1)
  {
    hide Quoted;
    InQuotes("0.1.0");
  }

  // -------- the data

  function FormatEntries(f: Format): seq<Entry> {
    [Entry("rate", Decimal(f.rate)), Entry("width", Decimal(f.width)), Entry("channels", Decimal(f.channels))]
  }

  lemma FormatPrints(f: Format)
    ensures AllPrint(FormatFields(f), FormatEntries(f), 1)
  {
    hide Decimal;
    IntegersAreInt32(f.rate);
    IntegersAreInt32(f.width);
    IntegersAreInt32(f.channels);
  }

  /** An audio-start: the format, and from the server a timestamp of 0. */
  lemma StartIsText(f: Format, stamped: bool)
    ensures DataText(StartEvent(f, stamped))
            == Braces(FormatEntries(f) + if stamped then [Entry("timestamp", Ascii("0"))] else [])
  {
    hide Decimal, FormatFields, FormatEntries, Braces;
    FormatPrints(f);
    var extra := if stamped then [Member(TIMESTAMP, Number(0.0))] else [];
    var more := if stamped then [Entry("timestamp", Ascii("0"))] else [];
    ZeroPrints();
    AppendPrints(FormatFields(f), FormatEntries(f), extra, more, 1);
    ObjectPrints(FormatFields(f) + extra, FormatEntries(f) + more, 0);
  }

  lemma ZeroPrints()
    ensures Prints(Member(TIMESTAMP, Number(0.0)), Entry("timestamp", Ascii("0")), 1)
  {
    IntegersAreInt32(0);
  }

  /** An audio-chunk: the format, and behind it the samples, low byte first, in two's complement. */
  lemma ChunkIsText(f: Format, pcm: seq<Sample>)
    ensures DataText(ChunkEvent(f, pcm)) == Braces(FormatEntries(f))
    ensures |ChunkEvent(f, pcm).payload| == 2 * |pcm|
    ensures forall i :: 0 <= i < |pcm| ==>
      (ChunkEvent(f, pcm).payload[2 * i] as int + 0x100 * ChunkEvent(f, pcm).payload[2 * i + 1] as int - pcm[i])
      % 0x1_0000 == 0
  {
    hide Decimal, FormatFields, FormatEntries, Braces;
    FormatPrints(f);
    ObjectPrints(FormatFields(f), FormatEntries(f), 0);
  }

  lemma TranscriptIsText(text: seq<byte>, partial: bool)
    ensures DataText(TranscriptEvent(text, partial))
            == Braces([Entry("text", Quoted(text))] + if partial then [Entry("is_partial", Ascii("true"))] else [])
  {
    hide Quoted;
    assert TRUE_TEXT == Ascii("true");
    ObjectPrints(TranscriptEvent(text, partial).data.value.members,
                 [Entry("text", Quoted(text))] + if partial then [Entry("is_partial", Ascii("true"))] else [], 0);
  }

  function VoiceEntry(voice: Option<seq<byte>>): seq<Entry> {
    match voice
    case Some(v) => [Entry("voice", Braces([Entry("name", Quoted(v))]))]
    case None => []
  }

  function LanguageEntry(language: Option<seq<byte>>): seq<Entry> {
    match language
    case Some(l) => if |l| > 0 then [Entry("language", Quoted(l))] else []
    case None => []
  }

  lemma SynthesizeIsText(text: seq<byte>, voice: Option<seq<byte>>)
    ensures DataText(SynthesizeEvent(text, voice))
            == Braces([Entry("text", Quoted(text))] + VoiceEntry(voice))
  {
    hide Quoted, Braces;
    match voice
    case Some(v) =>
      var named := Entry("voice", Braces([Entry("name", Quoted(v))]));
      ObjectPrints([Member(NAME, String(v))], [Entry("name", Quoted(v))], 1);
      assert [Entry("text", Quoted(text))] + [named] == [Entry("text", Quoted(text)), named];
      ObjectPrints(SynthesizeEvent(text, voice).data.value.members,
                   [Entry("text", Quoted(text)), Entry("voice", Braces([Entry("name", Quoted(v))]))], 0);
    case None =>
      Nothing([Entry("text", Quoted(text))]);
      ObjectPrints(SynthesizeEvent(text, voice).data.value.members, [Entry("text", Quoted(text))], 0);
  }

  /** The opening request of a transcription, as a batch or as a stream. */
  lemma OpeningIsText(op: Op)
    requires op.TranscribeOp? || op.StreamOp?
    ensures Requests(op)[0].typ == Ascii(if op.TranscribeOp? then "transcribe" else "transcribe-start")
    ensures DataText(Requests(op)[0]) == Braces(LanguageEntry(op.language))
  {
    hide Quoted, Braces;
    ObjectPrints(LanguageFields(op.language), LanguageEntry(op.language), 0);
  }

  // -------- the data of an info event

  function TextEntry(name: string, t: Option<Text>): seq<Entry> {
    if t == None then [] else [Entry(name, Quoted(t.value))]
  }

  function QuotedAll(ts: seq<Text>): seq<seq<byte>> {
    seq(|ts|, i requires 0 <= i < |ts| => Quoted(ts[i]))
  }

  function SpeakerTexts(ts: seq<Text>): seq<seq<byte>> {
    seq(|ts|, i requires 0 <= i < |ts| => Braces([Entry("name", Quoted(ts[i]))]))
  }

  function VoiceText(v: Voice): seq<byte> {
    Braces([Entry("name", Quoted(v.name))]
           + (TextEntry("description", v.description)
              + [Entry("languages", Brackets(QuotedAll(v.languages))),
                 Entry("speakers", Brackets(SpeakerTexts(v.speakers)))]))
  }

  function ModelText(m: Model): seq<byte> {
    Braces([Entry("name", Quoted(m.name))]
           + (TextEntry("description", m.description) + [Entry("languages", Brackets(QuotedAll(m.languages)))]))
  }

  function VoiceTexts(vs: seq<Voice>): seq<seq<byte>> {
    seq(|vs|, i requires 0 <= i < |vs| => VoiceText(vs[i]))
  }

  function ModelTexts(ms: seq<Model>): seq<seq<byte>> {
    seq(|ms|, i requires 0 <= i < |ms| => ModelText(ms[i]))
  }

  function TtsText(o: Offer): seq<byte> {
    Braces(TextEntry("name", o.tts.name)
           + (TextEntry("version", o.tts.version) + [Entry("voices", Brackets(VoiceTexts(o.voices)))]))
  }

  function AsrText(o: Offer): seq<byte> {
    Braces(TextEntry("name", o.asr.name)
           + (TextEntry("version", o.asr.version)
              + [Entry("installed", Ascii("true")), Entry("models", Brackets(ModelTexts(o.models)))]))
  }

  lemma TextPrints(name: string, t: Option<Text>, depth: nat)
    requires Simple(name)
    ensures AllPrint(OptionalField(Ascii(name), t), TextEntry(name, t), depth)
  {
    hide Quoted;
  }

  lemma LanguagesPrint(ts: seq<Text>, depth: nat)
    ensures Render(Array(Strings(ts)), false, depth) == Brackets(QuotedAll(ts))
  {
    hide Quoted, Brackets;
    ArrayPrints(Strings(ts), QuotedAll(ts), depth);
  }

  lemma SpeakersPrint(ts: seq<Text>, depth: nat)
    ensures Render(Array(Named(ts)), false, depth) == Brackets(SpeakerTexts(ts))
  {
    hide Quoted, Brackets, Braces;
    forall i | 0 <= i < |ts| ensures Render(Named(ts)[i], false, depth + 1) == SpeakerTexts(ts)[i] {
      ObjectPrints([Member(NAME, String(ts[i]))], [Entry("name", Quoted(ts[i]))], depth + 1);
    }
    ArrayPrints(Named(ts), SpeakerTexts(ts), depth);
  }

  lemma VoicePrints(v: Voice, depth: nat)
    ensures Render(VoiceValue(v), false, depth) == VoiceText(v)
  {
    hide Quoted, Brackets, Braces, TextEntry, OptionalField, Strings, Named, QuotedAll, SpeakerTexts;
    LanguagesPrint(v.languages, depth + 1);
    SpeakersPrint(v.speakers, depth + 1);
    TextPrints("description", v.description, depth + 1);
    var lists := [Member(LANGUAGES, Array(Strings(v.languages))), Member(SPEAKERS, Array(Named(v.speakers)))];
    var texts := [Entry("languages", Brackets(QuotedAll(v.languages))),
                  Entry("speakers", Brackets(SpeakerTexts(v.speakers)))];
    DescribedPrints(v.name, v.description, lists, texts, depth);
  }

  lemma ModelPrints(m: Model, depth: nat)
    ensures Render(ModelValue(m), false, depth) == ModelText(m)
  {
    hide Quoted, Brackets, Braces, TextEntry, OptionalField, Strings, QuotedAll;
    LanguagesPrint(m.languages, depth + 1);
    DescribedPrints(m.name, m.description, [Member(LANGUAGES, Array(Strings(m.languages)))],
                    [Entry("languages", Brackets(QuotedAll(m.languages)))], depth);
  }

  /** A name, perhaps a description, and lists behind them. */
  lemma DescribedPrints(name: Text, description: Option<Text>, lists: seq<Member>, texts: seq<Entry>, depth: nat)
    requires AllPrint(lists, texts, depth + 1)
    ensures Render(Object(TextField(NAME, name) + (OptionalField(DESCRIPTION, description) + lists)), false, depth)
            == Braces([Entry("name", Quoted(name))] + (TextEntry("description", description) + texts))
  {
    hide Quoted, Braces, Render, TextEntry, OptionalField, AllPrint;
    TextPrints("name", Some(name), depth + 1);
    TextPrints("description", description, depth + 1);
    var d, x := OptionalField(DESCRIPTION, description), TextEntry("description", description);
    AppendPrints(d, x, lists, texts, depth + 1);
    NamePrints(name, depth + 1);
    AppendPrints(TextField(NAME, name), [Entry("name", Quoted(name))], d + lists, x + texts, depth + 1);
    ObjectPrints(TextField(NAME, name) + (d + lists), [Entry("name", Quoted(name))] + (x + texts), depth);
  }

  lemma NamePrints(name: Text, depth: nat)
    ensures AllPrint(TextField(NAME, name), [Entry("name", Quoted(name))], depth)
  {
    hide Quoted;
  }

  /** An engine: perhaps a name, perhaps a version, and lists behind them. */
  lemma LabelledPrints(who: Label, lists: seq<Member>, texts: seq<Entry>, depth: nat)
    requires AllPrint(lists, texts, depth + 1)
    ensures Render(Object(OptionalField(NAME, who.name) + (OptionalField(VERSION, who.version) + lists)), false, depth)
            == Braces(TextEntry("name", who.name) + (TextEntry("version", who.version) + texts))
  {
    hide Quoted, Braces, Render, TextEntry, OptionalField, AllPrint;
    TextPrints("name", who.name, depth + 1);
    TextPrints("version", who.version, depth + 1);
    var n, x := OptionalField(NAME, who.name), TextEntry("name", who.name);
    var v, y := OptionalField(VERSION, who.version), TextEntry("version", who.version);
    AppendPrints(v, y, lists, texts, depth + 1);
    AppendPrints(n, x, v + lists, y + texts, depth + 1);
    ObjectPrints(n + (v + lists), x + (y + texts), depth);
  }

  lemma TtsPrints(o: Offer, depth: nat)
    ensures Render(TtsValue(o), false, depth) == TtsText(o)
  {
    hide Brackets, Braces, TextEntry, OptionalField, VoiceValue, VoiceText;
    forall i | 0 <= i < |o.voices|
      ensures Render(VoiceValues(o.voices)[i], false, depth + 2) == VoiceTexts(o.voices)[i]
    {
      VoicePrints(o.voices[i], depth + 2);
    }
    ArrayPrints(VoiceValues(o.voices), VoiceTexts(o.voices), depth + 1);
    LabelledPrints(o.tts, [Member(VOICES, Array(VoiceValues(o.voices)))],
                   [Entry("voices", Brackets(VoiceTexts(o.voices)))], depth);
  }

  lemma AsrPrints(o: Offer, depth: nat)
    ensures Render(AsrValue(o), false, depth) == AsrText(o)
  {
    hide Brackets, Braces, TextEntry, OptionalField, ModelValue, ModelText;
    assert TRUE_TEXT == Ascii("true");
    forall i | 0 <= i < |o.models|
      ensures Render(ModelValues(o.models)[i], false, depth + 2) == ModelTexts(o.models)[i]
    {
      ModelPrints(o.models[i], depth + 2);
    }
    ArrayPrints(ModelValues(o.models), ModelTexts(o.models), depth + 1);
    LabelledPrints(o.asr, [Member(INSTALLED, True), Member(MODELS, Array(ModelValues(o.models)))],
                   [Entry("installed", Ascii("true")), Entry("models", Brackets(ModelTexts(o.models)))], depth);
  }

  /** An engine when it is there, in a list. */
  lemma EnginePrints(there: bool, v: Value, text: seq<byte>)
    requires Render(v, false, 2) == text
    ensures Render(Array(if there then [v] else []), false, 1) == Brackets(if there then [text] else [])
  {
    hide Render, Brackets;
    ArrayPrints(if there then [v] else [], if there then [text] else [], 1);
  }

  lemma NothingPrints()
    ensures Render(Array([]), false, 1) == Ascii("[]")
  {
  }

  /** The data of an info event: the two kinds of engines, each when its callback is set, and three empty lists. */
  lemma InfoIsText(o: Offer)
    ensures Print(BuildInfo(o), false)
            == Braces([Entry("tts", Brackets(if o.hasTts then [TtsText(o)] else [])),
                       Entry("asr", Brackets(if o.hasAsr then [AsrText(o)] else [])),
                       Entry("handle", Ascii("[]")), Entry("intent", Ascii("[]")), Entry("wake", Ascii("[]"))])
  {
    hide Braces, Brackets, Render, TtsValue, AsrValue, TtsText, AsrText;
    TtsPrints(o, 2);
    AsrPrints(o, 2);
    EnginePrints(o.hasTts, TtsValue(o), TtsText(o));
    EnginePrints(o.hasAsr, AsrValue(o), AsrText(o));
    NothingPrints();
    ObjectPrints(BuildInfo(o).members,
                 [Entry("tts", Brackets(if o.hasTts then [TtsText(o)] else [])),
                  Entry("asr", Brackets(if o.hasAsr then [AsrText(o)] else [])),
                  Entry("handle", Ascii("[]")), Entry("intent", Ascii("[]")), Entry("wake", Ascii("[]"))], 0);
  }

  // -------- numbers

  /** Decimal numbers are written the way people read them. */
  lemma SomeNumbers()
    ensures Decimal(0) == Ascii("0") && Decimal(-12) == Ascii("-12") && Decimal(16000) == Ascii("16000")
  {
    assert Digits(160) == Ascii("160") by {
      assert Digits(16) == Ascii("16");
    }
  }

  // -------- reading what others write

  /** `n` is the length a header gives under a name: a positive number without its fraction, 0 for anything else. */
  predicate Announced(members: seq<Member>, name: string, n: nat) {
    match Lookup(members, Ascii(name))
    case Some(Number(x)) => if x > 0.0 then n as real <= x < (n + 1) as real else n == 0
    case _ => n == 0
  }

  lemma AnnouncedLength(members: seq<Member>, name: string, n: nat)
    requires Announced(members, name, n)
    ensures HeaderLength(Object(members), Ascii(name)) == n
  {
  }

  /** Any header line with a type is followed by the blocks whose lengths it gives. */
  lemma AnyHeader(line: seq<byte>, members: seq<Member>, typ: seq<byte>, d: nat, p: nat, s: seq<byte>)
    requires LF !in line && Parse(line) == Some(Object(members))
    requires Lookup(members, Ascii("type")) == Some(String(typ))
    requires Announced(members, "data_length", d) && Announced(members, "payload_length", p)
    ensures ReadEvent(line + [LF] + s)
            == if |s| < d then Failed(EofError, [])
               else if d > 0 && Parse(s[..d]) == None then Failed(ParseError, s[d..])
               else if |s| < d + p then Failed(EofError, [])
               else Read(Event(typ, if d == 0 then None else Parse(s[..d]), s[d..d + p]), s[d + p..])
  {
    hide Parse, Announced, HeaderLength;
    LineEndAt(line + [LF] + s, |line|);
    ReadLineFirst(line, s);
    AnnouncedLength(members, "data_length", d);
    AnnouncedLength(members, "payload_length", p);
    if d + p <= |s| {
      assert s[d..][..p] == s[d..d + p] && s[d..][p..] == s[d + p..];
    }
  }

  predicate IsHeader(v: Option<Value>) {
    match v
    case Some(Object(members)) => (match Lookup(members, Ascii("type")) case Some(String(_)) => true case _ => false)
    case _ => false
  }

  /** A line that is no JSON object with a type string is an error; without a newline there is no line. */
  lemma NoHeader(line: seq<byte>, s: seq<byte>)
    requires LF !in line
    ensures ReadEvent(line) == Failed(EofError, [])
    ensures !IsHeader(Parse(line)) ==> ReadEvent(line + [LF] + s) == Failed(ParseError, s)
  {
    hide Parse, ReadBlocks, HeaderLength, Lookup;
    LineEndAt(line, |line|);
    LineEndAt(line + [LF] + s, |line|);
    ReadLineFirst(line, s);
  }

  // -------- formatted prints

  /** In a formatted print a member stands on a line of its own, behind as many tabs as there are containers around
      it, with a tab behind its colon. */
  lemma FormattedMember(name: string, v: Value, last: bool, depth: nat)
    requires Simple(name)
    ensures RenderMember(Member(Ascii(name), v), last, true, depth)
            == seq(depth, _ => 9) + Ascii("\"" + name + "\":\t") + Render(v, true, depth)
               + Ascii(if last then "\n" else ",\n")
  {
    hide Quoted, Render, Tabs, Ascii;
    var value := Render(v, true, depth);
    FormattedParts(depth);
    InQuotes(name);
    AsciiAppend("\"" + name + "\"", ":\t");
    assert "\"" + name + "\"" + ":\t" == "\"" + name + "\":\t";
    if last {
      Rejoin(Tabs(depth), Quoted(Ascii(name)), [COLON], [TAB], value, [], [LF]);
    } else {
      Rejoin(Tabs(depth), Quoted(Ascii(name)), [COLON], [TAB], value, [COMMA], [LF]);
    }
  }

  lemma FormattedParts(depth: nat)
    ensures Tabs(depth) == seq(depth, _ => 9)
    ensures Ascii(":\t") == [COLON] + [TAB] && Ascii("\n") == [] + [LF] && Ascii(",\n") == [COMMA] + [LF]
  {
  }

  lemma Rejoin(a: seq<byte>, b: seq<byte>, c: seq<byte>, d: seq<byte>, e: seq<byte>, f: seq<byte>, g: seq<byte>)
    ensures a + b + c + d + e + f + g == a + (b + (c + d)) + e + (f + g)
  {
  }

  /** The brace that closes an object stands behind the tabs of the object itself. */
  lemma FormattedObject(members: seq<Member>, depth: nat)
    ensures Render(Object(members), true, depth)
            == Ascii("{\n") + RenderMembers(members, true, depth + 1) + seq(depth, _ => 9) + Ascii("}")
  {
    hide RenderMembers;
    assert Ascii("{\n") == [LBRACE] + [LF] && Ascii("}") == [RBRACE];
    assert Tabs(depth) == seq(depth, _ => 9);
  }

  /** The items of an array stand on one line, with a blank behind each comma. */
  lemma FormattedItems(v: Value, w: Value, rest: seq<Value>, depth: nat)
    ensures RenderItems([v] + ([w] + rest), true, depth)
            == Render(v, true, depth) + Ascii(", ") + RenderItems([w] + rest, true, depth)
  {
    hide Render;
    assert Ascii(", ") == [COMMA] + [SPACE];
    assert ([v] + ([w] + rest))[1..] == [w] + rest;
  }
}
