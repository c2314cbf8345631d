/** What a server offers, the data of its info event, and what a client reads out of that data. */
module Catalog {
  import opened Bytes
  import opened Json
  import opened JsonNumber
  import opened Wire
  import opened Protocol

  const TTS: seq<byte> := Ascii("tts")
  const ASR: seq<byte> := Ascii("asr")
  const HANDLE: seq<byte> := Ascii("handle")
  const INTENT: seq<byte> := Ascii("intent")
  const WAKE: seq<byte> := Ascii("wake")
  const VOICES: seq<byte> := Ascii("voices")
  const MODELS: seq<byte> := Ascii("models")
  const LANGUAGES: seq<byte> := Ascii("languages")
  const SPEAKERS: seq<byte> := Ascii("speakers")
  const DESCRIPTION: seq<byte> := Ascii("description")
  const INSTALLED: seq<byte> := Ascii("installed")

  datatype Voice = Voice(name: Text, languages: seq<Text>, description: Option<Text>, speakers: seq<Text>)
  datatype Model = Model(name: Text, languages: seq<Text>, description: Option<Text>)

  /** An engine's name and version, when they were given. */
  datatype Label = Label(name: Option<Text>, version: Option<Text>)

  /** Everything registered; `hasTts` and `hasAsr` say whether the callbacks are set. */
  datatype Offer = Offer(hasTts: bool, tts: Label, voices: seq<Voice>, hasAsr: bool, asr: Label, models: seq<Model>)

  // -------- build_info_data

  function TextField(name: seq<byte>, t: seq<byte>): seq<Member> {
    [Member(name, String(t))]
  }

  function OptionalField(name: seq<byte>, t: Option<Text>): seq<Member> {
    if t.Some? then TextField(name, t.value) else []
  }

  function Strings(ts: seq<Text>): (items: seq<Value>)
    ensures |items| == |ts| && forall i :: 0 <= i < |ts| ==> items[i] == String(ts[i])
  {
    seq(|ts|, i requires 0 <= i < |ts| => String(ts[i]))
  }

  function Named(ts: seq<Text>): (items: seq<Value>)
    ensures |items| == |ts| && forall i :: 0 <= i < |ts| ==> items[i] == Object(TextField(NAME, ts[i]))
  {
    seq(|ts|, i requires 0 <= i < |ts| => Object(TextField(NAME, ts[i])))
  }

  function VoiceValue(v: Voice): Value {
    Object(TextField(NAME, v.name) + (OptionalField(DESCRIPTION, v.description)
           + [Member(LANGUAGES, Array(Strings(v.languages))), Member(SPEAKERS, Array(Named(v.speakers)))]))
  }

  function ModelValue(m: Model): Value {
    Object(TextField(NAME, m.name) + (OptionalField(DESCRIPTION, m.description)
           + [Member(LANGUAGES, Array(Strings(m.languages)))]))
  }

  function VoiceValues(vs: seq<Voice>): (items: seq<Value>)
    ensures |items| == |vs| && forall i :: 0 <= i < |vs| ==> items[i] == VoiceValue(vs[i])
  {
    seq(|vs|, i requires 0 <= i < |vs| => VoiceValue(vs[i]))
  }

  function ModelValues(ms: seq<Model>): (items: seq<Value>)
    ensures |items| == |ms| && forall i :: 0 <= i < |ms| ==> items[i] == ModelValue(ms[i])
  {
    seq(|ms|, i requires 0 <= i < |ms| => ModelValue(ms[i]))
  }

  function TtsValue(o: Offer): Value {
    Object(OptionalField(NAME, o.tts.name) + (OptionalField(VERSION, o.tts.version)
           + [Member(VOICES, Array(VoiceValues(o.voices)))]))
  }

  function AsrValue(o: Offer): Value {
    Object(OptionalField(NAME, o.asr.name) + (OptionalField(VERSION, o.asr.version)
           + [Member(INSTALLED, True), Member(MODELS, Array(ModelValues(o.models)))]))
  }

  function BuildInfo(o: Offer): Value {
    Object([Member(TTS, Array(if o.hasTts then [TtsValue(o)] else [])),
            Member(ASR, Array(if o.hasAsr then [AsrValue(o)] else [])),
            Member(HANDLE, Array([])), Member(INTENT, Array([])), Member(WAKE, Array([]))])
  }

  // -------- what a client makes of it

  /** A missing name, version or list entry is a null pointer, here None. */
  datatype VoiceInfo = VoiceInfo(name: Option<seq<byte>>, languages: seq<Option<seq<byte>>>,
                                 description: Option<seq<byte>>, speakers: seq<Option<seq<byte>>>)
  datatype ModelInfo = ModelInfo(name: Option<seq<byte>>, languages: seq<Option<seq<byte>>>,
      description: Option<seq<byte>>)
  datatype TtsInfo = TtsInfo(name: Option<seq<byte>>, version: Option<seq<byte>>, voices: seq<VoiceInfo>)
  datatype AsrInfo = AsrInfo(name: Option<seq<byte>>, version: Option<seq<byte>>, models: seq<ModelInfo>)
  datatype ServerInfo = ServerInfo(tts: seq<TtsInfo>, asr: seq<AsrInfo>)

  /** The elements of a member that is an array; none otherwise. */
  function Elements(v: Value, name: seq<byte>): seq<Value> {
    match Get(v, name)
    case Some(Array(items)) => items
    case _ => []
  }

  function TextsOf(items: seq<Value>): (r: seq<Option<seq<byte>>>)
    ensures |r| == |items| && forall i :: 0 <= i < |r| ==> r[i] == AsText(Some(items[i]))
  {
    seq(|items|, i requires 0 <= i < |items| => AsText(Some(items[i])))
  }

  function NamesOf(items: seq<Value>): (r: seq<Option<seq<byte>>>)
    ensures |r| == |items| && forall i :: 0 <= i < |r| ==> r[i] == AsText(Get(items[i], NAME))
  {
    seq(|items|, i requires 0 <= i < |items| => AsText(Get(items[i], NAME)))
  }

  /** The strings among the items, in order. */
  function StringsOf(items: seq<Value>): (r: seq<Option<seq<byte>>>)
    ensures |r| <= |items|
  {
    if items == [] then []
    else
      var init := StringsOf(items[..|items| - 1]);
      if items[|items| - 1].String? then init + [Some(items[|items| - 1].text)] else init
  }

  /** A model's languages: the strings move to the front, and the count stays that of all items. */
  function Packed(items: seq<Value>): (r: seq<Option<seq<byte>>>)
    ensures |r| == |items|
  {
    StringsOf(items) + seq(|items| - |StringsOf(items)|, _ => None)
  }

  function StringCount(items: seq<Value>): nat {
    if items == [] then 0 else StringCount(items[..|items| - 1]) + if items[|items| - 1].String? then 1 else 0
  }

  /** Each string moves to the place its number among the strings gives it; behind them there is nothing. */
  lemma {:induction false} StringsMoveToTheFront(items: seq<Value>, i: nat)
    requires i < |items| && items[i].String?
    ensures StringCount(items[..i]) < |StringsOf(items)| == StringCount(items)
    ensures StringsOf(items)[StringCount(items[..i])] == Some(items[i].text)
    ensures Packed(items)[StringCount(items[..i])] == Some(items[i].text)
    ensures forall k :: StringCount(items) <= k < |items| ==> Packed(items)[k] == None
    decreases |items|
  {
    var n := |items| - 1;
    StringsAreCounted(items[..n]);
    if i < n {
      assert items[..n][..i] == items[..i];
      StringsMoveToTheFront(items[..n], i);
    }
  }

  lemma {:induction false} StringsAreCounted(items: seq<Value>)
    ensures |StringsOf(items)| == StringCount(items)
    decreases |items|
  {
    if items != [] {
      StringsAreCounted(items[..|items| - 1]);
    }
  }

  function VoiceOf(v: Value): VoiceInfo {
    VoiceInfo(AsText(Get(v, NAME)), TextsOf(Elements(v, LANGUAGES)), AsText(Get(v, DESCRIPTION)),
              NamesOf(Elements(v, SPEAKERS)))
  }

  function ModelOf(v: Value): ModelInfo {
    ModelInfo(AsText(Get(v, NAME)), Packed(Elements(v, LANGUAGES)), AsText(Get(v, DESCRIPTION)))
  }

  function VoicesOf(items: seq<Value>): (r: seq<VoiceInfo>)
    ensures |r| == |items| && forall i :: 0 <= i < |r| ==> r[i] == VoiceOf(items[i])
  {
    seq(|items|, i requires 0 <= i < |items| => VoiceOf(items[i]))
  }

  function ModelsOf(items: seq<Value>): (r: seq<ModelInfo>)
    ensures |r| == |items| && forall i :: 0 <= i < |r| ==> r[i] == ModelOf(items[i])
  {
    seq(|items|, i requires 0 <= i < |items| => ModelOf(items[i]))
  }

  function TtsOf(v: Value): TtsInfo {
    TtsInfo(AsText(Get(v, NAME)), AsText(Get(v, VERSION)), VoicesOf(Elements(v, VOICES)))
  }

  function AsrOf(v: Value): AsrInfo {
    AsrInfo(AsText(Get(v, NAME)), AsText(Get(v, VERSION)), ModelsOf(Elements(v, MODELS)))
  }

  function AllTts(items: seq<Value>): (r: seq<TtsInfo>)
    ensures |r| == |items| && forall i :: 0 <= i < |r| ==> r[i] == TtsOf(items[i])
  {
    seq(|items|, i requires 0 <= i < |items| => TtsOf(items[i]))
  }

  function AllAsr(items: seq<Value>): (r: seq<AsrInfo>)
    ensures |r| == |items| && forall i :: 0 <= i < |r| ==> r[i] == AsrOf(items[i])
  {
    seq(|items|, i requires 0 <= i < |items| => AsrOf(items[i]))
  }

  /** The reading of an info event's data. */
  function InfoOf(data: Option<Value>): ServerInfo {
    if data.None? then ServerInfo([], [])
    else ServerInfo(AllTts(Elements(data.value, TTS)), AllAsr(Elements(data.value, ASR)))
  }

  // -------- the round trip

  function Present(ts: seq<Text>): (r: seq<Option<seq<byte>>>)
    ensures |r| == |ts| && forall i :: 0 <= i < |r| ==> r[i] == Some(ts[i])
  {
    seq(|ts|, i requires 0 <= i < |ts| => Some(ts[i]))
  }

  function Maybe(t: Option<Text>): Option<seq<byte>> {
    if t.Some? then Some(t.value) else None
  }

  /** The voice as a client should see it. */
  function SeenVoice(v: Voice): VoiceInfo {
    VoiceInfo(Some(v.name), Present(v.languages), Maybe(v.description), Present(v.speakers))
  }

  function SeenModel(m: Model): ModelInfo {
    ModelInfo(Some(m.name), Present(m.languages), Maybe(m.description))
  }

  /** What a client should learn about a server: each engine exactly when its callback is set, with
      everything that was registered, in order. */
  predicate Describes(info: ServerInfo, o: Offer) {
    && |info.tts| == (if o.hasTts then 1 else 0)
    && (o.hasTts ==> SeesTts(info.tts[0], o))
    && |info.asr| == (if o.hasAsr then 1 else 0)
    && (o.hasAsr ==> SeesAsr(info.asr[0], o))
  }

  predicate SeesTts(t: TtsInfo, o: Offer) {
    && t.name == Maybe(o.tts.name) && t.version == Maybe(o.tts.version) && |t.voices| == |o.voices|
    && forall i :: 0 <= i < |o.voices| ==> t.voices[i] == SeenVoice(o.voices[i])
  }

  predicate SeesAsr(a: AsrInfo, o: Offer) {
    && a.name == Maybe(o.asr.name) && a.version == Maybe(o.asr.version) && |a.models| == |o.models|
    && forall i :: 0 <= i < |o.models| ==> a.models[i] == SeenModel(o.models[i])
  }

  lemma FieldKeys()
    ensures NAME != DESCRIPTION && NAME != LANGUAGES && NAME != SPEAKERS && NAME != VERSION && NAME != VOICES
    ensures DESCRIPTION != LANGUAGES && DESCRIPTION != SPEAKERS && LANGUAGES != SPEAKERS
    ensures VERSION != VOICES && VERSION != MODELS && VERSION != INSTALLED && NAME != MODELS && NAME != INSTALLED
    ensures INSTALLED != MODELS && TTS != ASR
  {
    assert |NAME| == 4 && |DESCRIPTION| == 11 && |LANGUAGES| == 9 && |SPEAKERS| == 8 && |VERSION| == 7;
    assert |VOICES| == 6 && |MODELS| == 6 && |INSTALLED| == 9;
    assert TTS[0] != ASR[0] && LANGUAGES[0] != INSTALLED[0];
  }

  /** Looking past an optional text in front. */
  lemma LookupText(name: seq<byte>, t: Option<Text>, rest: seq<Member>, key: seq<byte>)
    ensures Lookup(OptionalField(name, t) + rest, key)
            == if t.Some? && key == name then Some(String(t.value)) else Lookup(rest, key)
  {
    var all := OptionalField(name, t) + rest;
    if t.Some? {
      assert all[0] == Member(name, String(t.value)) && all[1..] == rest;
    } else {
      assert all == rest;
    }
  }

  /** Two optional texts in front of the other members. */
  lemma LookupPair(a: seq<byte>, s: Option<Text>, b: seq<byte>, t: Option<Text>, rest: seq<Member>, key: seq<byte>)
    requires a != b
    ensures Lookup(OptionalField(a, s) + (OptionalField(b, t) + rest), key)
            == if s.Some? && key == a then Some(String(s.value))
               else if t.Some? && key == b then Some(String(t.value)) else Lookup(rest, key)
  {
    LookupText(a, s, OptionalField(b, t) + rest, key);
    LookupText(b, t, rest, key);
  }

  lemma LookupTwo(m: Member, n: Member, key: seq<byte>)
    ensures Lookup([m], key) == if key == m.key then Some(m.value) else None
    ensures Lookup([m, n], key) == if key == m.key then Some(m.value) else if key == n.key then Some(n.value) else None
  {
    assert [m, n][1..] == [n];
    assert Lookup([n], key) == if key == n.key then Some(n.value) else None;
  }

  lemma {:induction false} StringsOfStrings(ts: seq<Text>)
    ensures StringsOf(Strings(ts)) == Present(ts)
  {
    var items := Strings(ts);
    if ts != [] {
      var init := ts[..|ts| - 1];
      StringsOfStrings(init);
      assert items[..|items| - 1] == Strings(init);
      assert Present(ts) == Present(init) + [Some(ts[|ts| - 1])];
    }
  }

  lemma VoiceComesBack(v: Voice)
    ensures VoiceOf(VoiceValue(v)) == SeenVoice(v)
  {
    FieldKeys();
    var languages, speakers := Member(LANGUAGES, Array(Strings(v.languages))),
        Member(SPEAKERS, Array(Named(v.speakers)));
    forall key ensures Get(VoiceValue(v), key)
      == if key == NAME then Some(String(v.name))
         else if v.description.Some? && key == DESCRIPTION then Some(String(v.description.value))
         else if key == LANGUAGES then Some(languages.value) else if key == SPEAKERS then Some(speakers.value) else None
    {
      LookupPair(NAME, Some(v.name), DESCRIPTION, v.description, [languages, speakers], key);
      LookupTwo(languages, speakers, key);
    }
    NamesComeBack(v.speakers);
    assert TextsOf(Strings(v.languages)) == Present(v.languages);
  }

  lemma NamesComeBack(ts: seq<Text>)
    ensures NamesOf(Named(ts)) == Present(ts)
  {
    forall i | 0 <= i < |ts| ensures AsText(Get(Named(ts)[i], NAME)) == Some(ts[i]) {
      LookupTwo(Member(NAME, String(ts[i])), Member(NAME, Null), NAME);
    }
  }

  lemma ModelComesBack(m: Model)
    ensures ModelOf(ModelValue(m)) == SeenModel(m)
  {
    FieldKeys();
    var languages := Member(LANGUAGES, Array(Strings(m.languages)));
    forall key ensures Get(ModelValue(m), key)
      == if key == NAME then Some(String(m.name))
         else if m.description.Some? && key == DESCRIPTION then Some(String(m.description.value))
         else if key == LANGUAGES then Some(languages.value) else None
    {
      LookupPair(NAME, Some(m.name), DESCRIPTION, m.description, [languages], key);
      LookupTwo(languages, languages, key);
    }
    StringsOfStrings(m.languages);
  }

  lemma TtsComesBack(o: Offer)
    ensures SeesTts(TtsOf(TtsValue(o)), o)
  {
    FieldKeys();
    var voices := Member(VOICES, Array(VoiceValues(o.voices)));
    forall key ensures Get(TtsValue(o), key)
      == if o.tts.name.Some? && key == NAME then Some(String(o.tts.name.value))
         else if o.tts.version.Some? && key == VERSION then Some(String(o.tts.version.value))
         else if key == VOICES then Some(voices.value) else None
    {
      LookupPair(NAME, o.tts.name, VERSION, o.tts.version, [voices], key);
      LookupTwo(voices, voices, key);
    }
    forall i | 0 <= i < |o.voices| ensures VoiceOf(VoiceValues(o.voices)[i]) == SeenVoice(o.voices[i]) {
      VoiceComesBack(o.voices[i]);
    }
  }

  lemma AsrComesBack(o: Offer)
    ensures SeesAsr(AsrOf(AsrValue(o)), o)
  {
    FieldKeys();
    var installed, models := Member(INSTALLED, True), Member(MODELS, Array(ModelValues(o.models)));
    forall key ensures Get(AsrValue(o), key)
      == if o.asr.name.Some? && key == NAME then Some(String(o.asr.name.value))
         else if o.asr.version.Some? && key == VERSION then Some(String(o.asr.version.value))
         else if key == INSTALLED then Some(True) else if key == MODELS then Some(models.value) else None
    {
      LookupPair(NAME, o.asr.name, VERSION, o.asr.version, [installed, models], key);
      LookupTwo(installed, models, key);
    }
    forall i | 0 <= i < |o.models| ensures ModelOf(ModelValues(o.models)[i]) == SeenModel(o.models[i]) {
      ModelComesBack(o.models[i]);
    }
  }

  /** Describe tells a client exactly what was registered. */
  lemma DescribeRoundTrip(o: Offer)
    ensures Describes(InfoOf(Some(BuildInfo(o))), o)
  {
    FieldKeys();
    TtsComesBack(o);
    AsrComesBack(o);
    var members := BuildInfo(o).members;
    assert members[0].key == TTS && members[1..][0] == members[1];
    assert Lookup(members, TTS) == Some(members[0].value);
    assert Lookup(members, ASR) == Lookup(members[1..], ASR) == Some(members[1].value);
  }

  /** Two servers that look the same to a client offer the same through each engine that is set. */
  lemma DescribeIsFaithful(info: ServerInfo, o: Offer, p: Offer)
    requires Describes(info, o) && Describes(info, p)
    ensures o.hasTts == p.hasTts && o.hasAsr == p.hasAsr
    ensures o.hasTts ==> o.tts == p.tts && o.voices == p.voices
    ensures o.hasAsr ==> o.asr == p.asr && o.models == p.models
  {
    if o.hasTts {
      forall i | 0 <= i < |o.voices| ensures o.voices[i] == p.voices[i] {
        SeenVoiceInjective(o.voices[i], p.voices[i]);
      }
    }
    if o.hasAsr {
      forall i | 0 <= i < |o.models| ensures o.models[i] == p.models[i] {
        SeenModelInjective(o.models[i], p.models[i]);
      }
    }
  }

  lemma PresentInjective(a: seq<Text>, b: seq<Text>)
    requires Present(a) == Present(b)
    ensures a == b
  {
    forall i | 0 <= i < |a| ensures a[i] == b[i] {
      assert Present(a)[i] == Present(b)[i];
    }
  }

  lemma SeenVoiceInjective(v: Voice, w: Voice)
    requires SeenVoice(v) == SeenVoice(w)
    ensures v == w
  {
    PresentInjective(v.languages, w.languages);
    PresentInjective(v.speakers, w.speakers);
  }

  lemma SeenModelInjective(v: Model, w: Model)
    requires SeenModel(v) == SeenModel(w)
    ensures v == w
  {
    PresentInjective(v.languages, w.languages);
  }

  // -------- the info event fits the wire

  lemma LightText(name: seq<byte>, t: Option<Text>, rest: seq<Member>, k: nat)
    requires NoNul(name) && Light(rest, k)
    ensures Light(OptionalField(name, t) + rest, k)
  {
    if t.Some? {
      LightCons(Member(name, String(t.value)), rest, k);
    } else {
      assert OptionalField(name, t) + rest == rest;
    }
  }

  lemma LightPair(m: Member, n: Member, k: nat)
    requires NoNul(m.key) && Printable(m.value) && NestsWithin(m.value, k)
    requires NoNul(n.key) && Printable(n.value) && NestsWithin(n.value, k)
    ensures Light([m], k) && Light([m, n], k)
  {
    assert Light([], k);
    LightCons(m, [], k);
    LightCons(n, [], k);
    LightCons(m, [n], k);
    assert [m] + [] == [m] && [n] + [] == [n] && [m] + [n] == [m, n];
  }

  lemma KeysAreText()
    ensures NoNul(NAME) && NoNul(VERSION) && NoNul(DESCRIPTION) && NoNul(LANGUAGES) && NoNul(SPEAKERS)
    ensures NoNul(VOICES) && NoNul(MODELS) && NoNul(INSTALLED)
    ensures NoNul(TTS) && NoNul(ASR) && NoNul(HANDLE) && NoNul(INTENT) && NoNul(WAKE)
  {
    AsciiHasNoNul("name");
    AsciiHasNoNul("version");
    AsciiHasNoNul("description");
    AsciiHasNoNul("languages");
    AsciiHasNoNul("speakers");
    AsciiHasNoNul("voices");
    AsciiHasNoNul("models");
    AsciiHasNoNul("installed");
    AsciiHasNoNul("tts");
    AsciiHasNoNul("asr");
    AsciiHasNoNul("handle");
    AsciiHasNoNul("intent");
    AsciiHasNoNul("wake");
  }

  lemma NamesTravel(ts: seq<Text>)
    ensures Printable(Array(Named(ts))) && NestsWithin(Array(Named(ts)), 2)
  {
    KeysAreText();
    forall i | 0 <= i < |ts| ensures Printable(Named(ts)[i]) && NestsWithin(Named(ts)[i], 1) {
      LightPair(Member(NAME, String(ts[i])), Member(NAME, Null), 0);
    }
    ItemsByIndex(Named(ts), 1);
  }

  lemma StringsTravel(ts: seq<Text>, k: nat)
    requires k > 0
    ensures Printable(Array(Strings(ts))) && NestsWithin(Array(Strings(ts)), k)
  {
    ItemsByIndex(Strings(ts), k - 1);
  }

  lemma VoiceTravels(v: Voice)
    ensures Printable(VoiceValue(v)) && NestsWithin(VoiceValue(v), 3)
  {
    KeysAreText();
    StringsTravel(v.languages, 2);
    NamesTravel(v.speakers);
    var languages, speakers := Member(LANGUAGES, Array(Strings(v.languages))),
        Member(SPEAKERS, Array(Named(v.speakers)));
    LightPair(languages, speakers, 2);
    LightText(DESCRIPTION, v.description, [languages, speakers], 2);
    LightText(NAME, Some(v.name), OptionalField(DESCRIPTION, v.description) + [languages, speakers], 2);
  }

  lemma ModelTravels(m: Model)
    ensures Printable(ModelValue(m)) && NestsWithin(ModelValue(m), 3)
  {
    KeysAreText();
    StringsTravel(m.languages, 2);
    var languages := Member(LANGUAGES, Array(Strings(m.languages)));
    LightPair(languages, languages, 2);
    LightText(DESCRIPTION, m.description, [languages], 2);
    LightText(NAME, Some(m.name), OptionalField(DESCRIPTION, m.description) + [languages], 2);
  }

  lemma TtsTravels(o: Offer)
    ensures Printable(TtsValue(o)) && NestsWithin(TtsValue(o), 5)
  {
    KeysAreText();
    forall i | 0 <= i < |o.voices| ensures Printable(VoiceValues(o.voices)[i])
        && NestsWithin(VoiceValues(o.voices)[i], 3) {
      VoiceTravels(o.voices[i]);
    }
    ItemsByIndex(VoiceValues(o.voices), 3);
    var voices := Member(VOICES, Array(VoiceValues(o.voices)));
    LightPair(voices, voices, 4);
    LightText(VERSION, o.tts.version, [voices], 4);
    LightText(NAME, o.tts.name, OptionalField(VERSION, o.tts.version) + [voices], 4);
  }

  lemma AsrTravels(o: Offer)
    ensures Printable(AsrValue(o)) && NestsWithin(AsrValue(o), 5)
  {
    KeysAreText();
    forall i | 0 <= i < |o.models| ensures Printable(ModelValues(o.models)[i])
        && NestsWithin(ModelValues(o.models)[i], 3) {
      ModelTravels(o.models[i]);
    }
    ItemsByIndex(ModelValues(o.models), 3);
    var installed, models := Member(INSTALLED, True), Member(MODELS, Array(ModelValues(o.models)));
    LightPair(installed, models, 4);
    LightText(VERSION, o.asr.version, [installed, models], 4);
    LightText(NAME, o.asr.name, OptionalField(VERSION, o.asr.version) + [installed, models], 4);
  }

  lemma OneTravels(v: Value, k: nat)
    requires k > 0 && Printable(v) && NestsWithin(v, k - 1)
    ensures Printable(Array([v])) && NestsWithin(Array([v]), k) && Printable(Array([])) && NestsWithin(Array([]), k)
  {
    ItemsByIndex([v], k - 1);
  }

  /** The data of an info event is within the codec's limits whatever was registered. */
  lemma InfoTravels(o: Offer)
    ensures Printable(BuildInfo(o)) && NestsWithin(BuildInfo(o), 7)
  {
    KeysAreText();
    TtsTravels(o);
    AsrTravels(o);
    OneTravels(TtsValue(o), 6);
    OneTravels(AsrValue(o), 6);
    var members := BuildInfo(o).members;
    LightPair(members[3], members[4], 6);
    LightCons(members[2], members[3..], 6);
    LightCons(members[1], members[2..], 6);
    LightCons(members[0], members[1..], 6);
    assert members[3..] == [members[3], members[4]];
    assert [members[2]] + members[3..] == members[2..];
    assert [members[1]] + members[2..] == members[1..];
    assert [members[0]] + members[1..] == members;
  }
}
