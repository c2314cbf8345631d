/** The registration half of a server: fixed tables that fill up, and the info data built from them. */
module Registry {
  import opened Bytes
  import opened Json
  import opened Wire
  import opened Protocol
  import opened Catalog

  const MAX_VOICES: nat := 64
  const MAX_SPEAKERS: nat := 32
  const MAX_LANGS: nat := 8
  const MAX_MODELS: nat := 16

  datatype Result = Done | Invalid | Full

  function AtMost<T>(s: seq<T>, n: nat): (r: seq<T>)
    ensures r <= s && |r| <= n && (|r| < |s| ==> |r| == n)
  {
    if |s| <= n then s else s[..n]
  }

  /** A list of C strings that may be a null pointer. */
  function Listed(languages: Option<seq<Text>>): seq<Text> {
    if languages.Some? then languages.value else []
  }

  /** The tables of wyoming_server. A slot's languages and speakers are its filled entries. */
  class Server {
    var hasTts: bool
    var tts: Label
    var hasAsr: bool
    var asr: Label
    const voices: array<Voice>
    var voiceCount: nat
    const models: array<Model>
    var modelCount: nat

    constructor ()
      ensures Valid() && Offered() == Offer(false, Label(None, None), [], false, Label(None, None), [])
      ensures fresh(voices) && fresh(models)
    {
      hasTts, tts, hasAsr, asr := false, Label(None, None), false, Label(None, None);
      voices := new Voice[MAX_VOICES](_ => Voice([], [], None, []));
      models := new Model[MAX_MODELS](_ => Model([], [], None));
      voiceCount, modelCount := 0, 0;
    }

    /** The counters stay inside the tables, and so do the lists of every slot in use. */
    ghost predicate Valid()
      reads this, voices, models
    {
      && voices.Length == MAX_VOICES && voiceCount <= MAX_VOICES
      && models.Length == MAX_MODELS && modelCount <= MAX_MODELS
      && (forall i :: 0 <= i < voiceCount ==>
            |voices[i].languages| <= MAX_LANGS && |voices[i].speakers| <= MAX_SPEAKERS)
      && (forall i :: 0 <= i < modelCount ==> |models[i].languages| <= MAX_LANGS)
    }

    ghost function Offered(): Offer
      requires Valid()
      reads this, voices, models
    {
      Offer(hasTts, tts, voices[..voiceCount], hasAsr, asr, models[..modelCount])
    }

    /** wyoming_server_set_tts; a null callback unregisters. */
    method SetTts(registered: bool, name: Option<Text>, version: Option<Text>)
      requires Valid()
      modifies this`hasTts, this`tts
      ensures Valid() && Offered() == old(Offered()).(hasTts := registered, tts := Label(name, version))
    {
      hasTts := registered;
      tts := Label(name, version);
    }

    /** wyoming_server_set_asr */
    method SetAsr(registered: bool, name: Option<Text>, version: Option<Text>)
      requires Valid()
      modifies this`hasAsr, this`asr
      ensures Valid() && Offered() == old(Offered()).(hasAsr := registered, asr := Label(name, version))
    {
      hasAsr := registered;
      asr := Label(name, version);
    }

    /** The first eight languages of a list. */
    method CopyLanguages(languages: Option<seq<Text>>) returns (copy: seq<Text>)
      ensures copy == AtMost(Listed(languages), 8)
    {
      copy := [];
      if languages.Some? {
        var i := 0;
        while i < |languages.value| && i < MAX_LANGS
          invariant i <= |languages.value| && i <= MAX_LANGS && copy == languages.value[..i]
        {
          copy := copy + [languages.value[i]];
          i := i + 1;
        }
      }
    }

    /** wyoming_server_add_voice: one more voice without speakers, while there is room. */
    method AddVoice(name: Option<Text>, languages: Option<seq<Text>>, description: Option<Text>) returns (r: Result)
      requires Valid()
      modifies this`voiceCount, voices
      ensures Valid()
      ensures r == if name.None? then Invalid else if |old(Offered()).voices| >= 64 then Full else Done
      ensures Offered() == if r != Done then old(Offered()) else
        old(Offered()).(voices := old(Offered()).voices
          + [Voice(name.value, AtMost(Listed(languages), 8), description, [])])
    {
      if name.None? {
        return Invalid;
      }
      if voiceCount >= MAX_VOICES {
        return Full;
      }
      var copy := CopyLanguages(languages);
      voices[voiceCount] := Voice(name.value, copy, description, []);
      voiceCount := voiceCount + 1;
      return Done;
    }

    /** wyoming_server_add_speaker: one more speaker for the voice added last. */
    method AddSpeaker(speaker: Option<Text>) returns (r: Result)
      requires Valid()
      modifies voices
      ensures Valid()
      ensures var vs := old(Offered()).voices;
              r == (if speaker.None? || vs == [] then Invalid
                    else if |vs[|vs| - 1].speakers| >= 32 then Full else Done)
              && (r != Done ==> Offered() == old(Offered()))
              && (r == Done ==>
                    Offered() == old(Offered()).(voices :=
                      vs[..|vs| - 1] + [vs[|vs| - 1].(speakers := vs[|vs| - 1].speakers + [speaker.value])]))
    {
      if speaker.None? || voiceCount == 0 {
        return Invalid;
      }
      var v := voices[voiceCount - 1];
      if |v.speakers| >= MAX_SPEAKERS {
        return Full;
      }
      voices[voiceCount - 1] := v.(speakers := v.speakers + [speaker.value]);
      return Done;
    }

    /** wyoming_server_add_asr_model */
    method AddAsrModel(name: Option<Text>, languages: Option<seq<Text>>, description: Option<Text>) returns (r: Result)
      requires Valid()
      modifies this`modelCount, models
      ensures Valid()
      ensures r == if name.None? then Invalid else if |old(Offered()).models| >= 16 then Full else Done
      ensures Offered() == if r != Done then old(Offered()) else
        old(Offered()).(models := old(Offered()).models
          + [Model(name.value, AtMost(Listed(languages), 8), description)])
    {
      if name.None? {
        return Invalid;
      }
      if modelCount >= MAX_MODELS {
        return Full;
      }
      var copy := CopyLanguages(languages);
      models[modelCount] := Model(name.value, copy, description);
      modelCount := modelCount + 1;
      return Done;
    }

    /** The languages of a voice or a model. */
    static method LanguageItems(languages: seq<Text>) returns (items: seq<Value>)
      ensures items == Strings(languages)
    {
      items := [];
      var j := 0;
      while j < |languages|
        invariant j <= |languages| && items == Strings(languages[..j])
      {
        items := items + [String(languages[j])];
        j := j + 1;
      }
      assert languages[..j] == languages;
    }

    /** The speakers of a voice, each an object with a name. */
    static method SpeakerItems(speakers: seq<Text>) returns (items: seq<Value>)
      ensures items == Named(speakers)
    {
      items := [];
      var j := 0;
      while j < |speakers|
        invariant j <= |speakers| && items == Named(speakers[..j])
      {
        items := items + [Object(TextField(NAME, speakers[j]))];
        j := j + 1;
      }
      assert speakers[..j] == speakers;
    }

    static method VoiceItem(v: Voice) returns (item: Value)
      ensures item == VoiceValue(v)
    {
      var languages := LanguageItems(v.languages);
      var speakers := SpeakerItems(v.speakers);
      item := Object(TextField(NAME, v.name) + (OptionalField(DESCRIPTION, v.description)
                     + [Member(LANGUAGES, Array(languages)), Member(SPEAKERS, Array(speakers))]));
    }

    static method ModelItem(m: Model) returns (item: Value)
      ensures item == ModelValue(m)
    {
      var languages := LanguageItems(m.languages);
      item := Object(TextField(NAME, m.name) + (OptionalField(DESCRIPTION, m.description)
                     + [Member(LANGUAGES, Array(languages))]));
    }

    /** build_info_data: the voices and the models in table order. */
    method BuildInfoData() returns (data: Value)
      requires Valid()
      ensures data == BuildInfo(Offered())
    {
      var ttsItems, asrItems := [], [];
      if hasTts {
        var items := [];
        var i := 0;
        while i < voiceCount
          invariant i <= voiceCount && items == VoiceValues(voices[..i])
        {
          var item := VoiceItem(voices[i]);
          items := items + [item];
          i := i + 1;
        }
        ttsItems := [Object(OptionalField(NAME, tts.name) + (OptionalField(VERSION, tts.version)
                            + [Member(VOICES, Array(items))]))];
      }
      if hasAsr {
        var items := [];
        var i := 0;
        while i < modelCount
          invariant i <= modelCount && items == ModelValues(models[..i])
        {
          var item := ModelItem(models[i]);
          items := items + [item];
          i := i + 1;
        }
        asrItems := [Object(OptionalField(NAME, asr.name) + (OptionalField(VERSION, asr.version)
                            + [Member(INSTALLED, True), Member(MODELS, Array(items))]))];
      }
      data := Object([Member(TTS, Array(ttsItems)), Member(ASR, Array(asrItems)),
                      Member(HANDLE, Array([])), Member(INTENT, Array([])), Member(WAKE, Array([]))]);
    }
  }
}
