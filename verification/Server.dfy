/** The loop that serves one client: reads, dispatches, calls the engines and replies. */
module Server {
  import opened Bytes
  import opened Json
  import opened Wire
  import opened Stream
  import opened EventIo
  import opened Audio
  import opened Protocol
  import opened Catalog
  import Registry
  import opened ServerMachine

  const COLLECT_CAPACITY: nat := 16000

  /** The input takes the stream from `left` to `rest`. A read the descriptor breaks may take anything off
      the front. */
  predicate Takes(left: seq<byte>, input: Input, rest: seq<byte>) {
    match input
    case Stopped => rest == left
    case Got(e) => Wire.ReadEvent(left) == Read(e, rest)
    case Lost(error) => if error == IoError then Suffix(left, rest) else Wire.ReadEvent(left) == Failed(error, rest)
  }

  /** The inputs are what reading the stream gives, one after the other, and `rest` is what they leave. */
  ghost predicate Delivers(stream: seq<byte>, inputs: seq<Input>, rest: seq<byte>)
    decreases |inputs|
  {
    if inputs == [] then rest == stream
    else
      exists left {:trigger Takes(left, inputs[|inputs| - 1], rest)} ::
        Delivers(stream, inputs[..|inputs| - 1], left) && Takes(left, inputs[|inputs| - 1], rest)
  }

  function InputOf(reply: Reply): Input {
    match reply
    case Got(e) => ServerMachine.Got(e)
    case Lost(error) => ServerMachine.Lost(error)
  }

  lemma ReplyTakes(left: seq<byte>, reply: Reply, rest: seq<byte>)
    requires reply == Reply.Lost(IoError) || Answers(reply, rest, Wire.ReadEvent(left))
    requires Suffix(left, rest)
    ensures Takes(left, InputOf(reply), rest) && |rest| <= |left| && (reply.Got? ==> |rest| < |left|)
  {
    ReadConsumes(left);
  }

  /** The bytes of the replies; a reply that does not fit the printer is not written. */
  function Replies(actions: seq<Action>): seq<byte> {
    if actions == [] then []
    else
      var last := actions[|actions| - 1];
      Replies(actions[..|actions| - 1])
      + if last.Sent? && Sendable(last.event) then Frame(last.event) else []
  }

  lemma RepliesGrow(actions: seq<Action>, a: Action)
    ensures Replies(actions + [a]) == Replies(actions) + if a.Sent? && Sendable(a.event) then Frame(a.event) else []
  {
    assert (actions + [a])[..|actions|] == actions;
  }

  lemma DeliversMore(stream: seq<byte>, inputs: seq<Input>, left: seq<byte>, input: Input, rest: seq<byte>)
    requires Delivers(stream, inputs, left)
    requires Takes(left, input, rest)
    ensures Delivers(stream, inputs + [input], rest)
  {
    var more := inputs + [input];
    assert more[..|more| - 1] == inputs && more[|more| - 1] == input;
    assert Takes(left, more[|more| - 1], rest);
  }

  lemma RunMore<S>(engine: Engine<S>, offer: Offer, st: State, s: S, inputs: seq<Input>, input: Input)
    ensures var t := Run(engine, offer, st, s, inputs); var u := Step(engine, offer, t.state, t.s, input);
            Run(engine, offer, st, s, inputs + [input]) == Turn(u.state, u.s, t.actions + u.actions)
  {
    RunAppend(engine, offer, st, s, inputs, [input]);
    var t := Run(engine, offer, st, s, inputs);
    var u := Step(engine, offer, t.state, t.s, input);
    assert [input][1..] == [];
    assert u.actions + [] == u.actions;
  }

  /** One connection being served. */
  class Handler<!S> {
    const io: IoBuf
    const server: Registry.Server
    const engine: Engine<S>
    var s: S                     // what the engines remember
    var flags: seq<bool>         // what the tests of the running flag will see; afterwards it stays up

    ghost const offer: Offer
    ghost const first: S
    ghost const stream: seq<byte>
    ghost const written: seq<byte>
    ghost const unbroken: bool         // the descriptor will not break
    ghost const steady: bool           // the running flag will stay up
    ghost var state: State
    ghost var inputs: seq<Input>       // everything observed so far
    ghost var actions: seq<Action>     // everything done so far

    constructor (io: IoBuf, server: Registry.Server, engine: Engine<S>, s: S, flags: seq<bool>)
      requires io.Valid() && server.Valid() && server.hasTts == engine.tts.Some? && server.hasAsr == engine.asr.Some?
      ensures Valid() && Offering() && this.io == io && this.server == server && this.engine == engine && this.s == s
      ensures state == Top && inputs == [] && actions == []
      ensures offer == server.Offered() && first == s && stream == io.Pending() && written == io.fd.outgoing
      ensures unbroken == Unbroken(io.fd.script) && steady == (flags == [])
    {
      this.io, this.server, this.engine, this.s, this.flags := io, server, engine, s, flags;
      offer, first, stream, written := server.Offered(), s, io.Pending(), io.fd.outgoing;
      unbroken, steady := Unbroken(io.fd.script), flags == [];
      state, inputs, actions := Top, [], [];
    }

    /** The buffer is in order, and the log of inputs is true. */
    ghost predicate Reading()
      reads this`inputs, this`flags, io`pos, io`len, io.buf, io.fd`incoming
    {
      && io.Valid() && Delivers(stream, inputs, io.Pending())
      && (unbroken ==> Input.Lost(IoError) !in inputs) && (steady ==> flags == [] && Stopped !in inputs)
    }

    /** The log of replies is true, as long as the descriptor holds. */
    ghost predicate Writing()
      reads this`actions, io.fd`outgoing, io.fd`script
    {
      unbroken ==> Unbroken(io.fd.script) && io.fd.outgoing == written + Replies(actions)
    }

    ghost predicate Base()
      reads this`inputs, this`flags, this`actions, io`pos, io`len, io.buf, io.fd`incoming, io.fd`outgoing, io.fd`script
    {
      Reading() && Writing()
    }

    /** Nothing has been registered since the connection was accepted. */
    ghost predicate Offering()
      reads server, server.voices, server.models
    {
      server.Valid() && server.Offered() == offer
    }

    /** State, engines and actions are what the machine makes of the inputs. */
    ghost predicate Ran()
      reads this`inputs, this`actions, this`state, this`s
    {
      Run(engine, offer, Top, first, inputs) == Turn(state, s, actions) && Sound(engine, state)
    }

    ghost predicate Valid()
      reads this`inputs, this`flags, this`actions, this`state, this`s
      reads io`pos, io`len, io.buf, io.fd`incoming, io.fd`outgoing, io.fd`script
    {
      Base() && Ran()
    }

    /** The last input has been read but not answered. */
    ghost predicate Due(input: Input)
      reads this`inputs, this`actions, this`state, this`s
    {
      && inputs != [] && inputs[|inputs| - 1] == input && Sound(engine, state)
      && Run(engine, offer, Top, first, inputs[..|inputs| - 1]) == Turn(state, s, actions)
    }

    /** The running flag, where it is tested, and one read. */
    method Next(tested: bool) returns (input: Input)
      requires Valid()
      modifies this`flags, this`inputs, io`pos, io`len, io.buf, io.fd`incoming, io.fd`script
      ensures Base() && Due(input) && (!tested ==> !input.Stopped?)
      ensures |io.Pending()| <= |old(io.Pending())| && (input.Got? ==> |io.Pending()| < |old(io.Pending())|)
    {
      if tested && flags != [] {
        var running := flags[0];
        flags := flags[1..];
        if !running {
          Observe(Stopped, io.Pending());
          return Stopped;
        }
      }
      input := ReadNext();
    }

    method ReadNext() returns (input: Input)
      requires Valid()
      modifies this`inputs, io`pos, io`len, io.buf, io.fd`incoming, io.fd`script
      ensures Base() && Due(input) && !input.Stopped?
      ensures |io.Pending()| <= |old(io.Pending())| && (input.Got? ==> |io.Pending()| < |old(io.Pending())|)
    {
      hide BuildInfo, Sendable, Replies, SpeechEvents, OnRequest, OnStreaming, OnCollect, OnStreamStart, Step;
      ghost var left := io.Pending();
      var reply := EventIo.ReadEvent(io);
      ReplyTakes(left, reply, io.Pending());
      input := InputOf(reply);
      Observe(input, left);
    }

    ghost method Observe(input: Input, left: seq<byte>)
      requires Ran() && Delivers(stream, inputs, left)
      requires io.Valid() && Takes(left, input, io.Pending())
      requires unbroken ==> input != Input.Lost(IoError) && Input.Lost(IoError) !in inputs
      requires steady ==> flags == [] && input != Stopped && Stopped !in inputs
      modifies this`inputs
      ensures inputs == old(inputs) + [input] && Reading() && Due(input)
    {
      DeliversMore(stream, inputs, left, input, io.Pending());
      ghost var before := inputs;
      inputs := inputs + [input];
      assert inputs[..|inputs| - 1] == before;
    }

    /** The log catches up once the answer to an input is complete. */
    ghost method Settle(input: Input, t: Turn<S>, next: State)
      requires Base() && inputs != [] && inputs[|inputs| - 1] == input && Sound(engine, t.state)
      requires Run(engine, offer, Top, first, inputs[..|inputs| - 1]) == t
      requires var u := Step(engine, offer, t.state, t.s, input);
               Turn(next, s, actions) == Turn(u.state, u.s, t.actions + u.actions)
      modifies this`state
      ensures Valid() && state == next
    {
      hide Delivers, Takes, BuildInfo, Sendable, Replies, SpeechEvents, OnRequest, OnStreaming, OnCollect,
           OnStreamStart, KindOf;
      assert inputs[..|inputs| - 1] + [input] == inputs;
      RunMore(engine, offer, Top, first, inputs[..|inputs| - 1], input);
      StepKeepsSound(engine, offer, t.state, t.s, input);
      state := next;
    }

    /** Writes a reply; nobody looks at whether that worked. */
    method Send(e: Event)
      requires Writing() && Writable(e)
      modifies this`actions, io.fd`outgoing, io.fd`script
      ensures Writing() && actions == old(actions) + [Sent(e)]
    {
      RepliesGrow(actions, Sent(e));
      Associate(written, Replies(actions), if Sendable(e) then Frame(e) else []);
      var rc := WriteEvent(io.fd, e);
      actions := actions + [Sent(e)];
    }

    // -------- describe

    method Describe(e: Event)
      requires Base() && Offering() && Due(ServerMachine.Got(e)) && state == Top && KindOf(e.typ) == Protocol.Describe
      modifies this`state, this`actions, io.fd`outgoing, io.fd`script
      ensures Valid() && state == Top
    {
      hide Delivers, Takes, BuildInfo, Sendable, Replies, OnSynthesize, OnStreaming, OnCollect, OnStreamStart;
      ghost var t := Turn(state, s, actions);
      var data := server.BuildInfoData();
      InfoTravels(offer);
      TypesAreText(Info);
      Send(Event(INFO, Some(data), []));
      Settle(ServerMachine.Got(e), t, Top);
    }

    // -------- synthesize

    /** audio-start, the chunks one after the other, audio-stop. */
    method SendSpeech(sp: Speech)
      requires Writing()
      modifies this`actions, io.fd`outgoing, io.fd`script
      ensures Writing() && actions == old(actions) + Sends(SpeechEvents(sp))
    {
      ghost var before := actions;
      ghost var sent := [StartEvent(sp.format, true)];
      StartTravels(sp.format, true);
      Send(StartEvent(sp.format, true));
      var offset := 0;
      assert sp.pcm[0..] == sp.pcm;
      while offset < |sp.pcm|
        invariant Writing() && offset <= |sp.pcm| && actions == before + Sends(sent)
        invariant sent + ChunkEvents(sp.format, Chunks(sp.pcm[offset..], AUDIO_CHUNK_SAMPLES))
                  == [StartEvent(sp.format, true)] + ChunkEvents(sp.format, Chunks(sp.pcm, AUDIO_CHUNK_SAMPLES))
      {
        var chunk := |sp.pcm| - offset;
        if chunk > AUDIO_CHUNK_SAMPLES {
          chunk := AUDIO_CHUNK_SAMPLES;
        }
        var piece := sp.pcm[offset..offset + chunk];
        NextChunk(sp.format, sp.pcm, offset, chunk, sent);
        ChunkTravels(sp.format, piece);
        Send(ChunkEvent(sp.format, piece));
        SendsMore(before, sent, ChunkEvent(sp.format, piece));
        sent := sent + [ChunkEvent(sp.format, piece)];
        offset := offset + chunk;
      }
      assert sp.pcm[offset..] == [];
      BareTravels(AudioStop);
      Send(Bare(AudioStop));
      SendsMore(before, sent, Bare(AudioStop));
      assert sent + [] == sent;
    }

    method Synthesize(e: Event)
      requires Base() && Due(ServerMachine.Got(e)) && state == Top && KindOf(e.typ) == Protocol.Synthesize
      modifies this`state, this`s, this`actions, io.fd`outgoing, io.fd`script
      ensures Valid() && state == Top
    {
      hide Delivers, Takes, BuildInfo, SpeechEvents, Sendable, Replies, OnStreaming, OnCollect, OnStreamStart;
      ghost var t := Turn(state, s, actions);
      var text := AsText(Field(e, TEXT));
      if text.Some? && engine.tts.Some? {
        var r := engine.tts.value(s, text.value, VoiceField(e, NAME), VoiceField(e, SPEAKER));
        s := r.0;
        if r.1.Some? {
          SendSpeech(r.1.value);
        }
      }
      Settle(ServerMachine.Got(e), t, Top);
    }

    // -------- transcribe

    /** The audio-start that must follow a request; anything else ends the connection. */
    method AwaitStart() returns (format: Option<Format>, input: Input)
      requires Valid() && (state.AwaitBatch? || state.AwaitStream?)
      modifies this`flags, this`inputs, this`state, io`pos, io`len, io.buf, io.fd`incoming, io.fd`script
      ensures format == None ==> Valid() && state == Closed
      ensures format != None ==> Base() && Due(input) && IsStart(input) && state == old(state)
                                 && format == Some(FormatOf(input.event, DEFAULT_FORMAT))
      ensures |io.Pending()| <= |old(io.Pending())|
    {
      hide Delivers, Takes, BuildInfo, Sendable, Replies, SpeechEvents, OnRequest, OnStreaming, OnCollect,
           OnStreamStart;
      ghost var t := Turn(state, s, actions);
      input := Next(false);
      if !input.Got? || KindOf(input.event.typ) != AudioStart {
        Settle(input, t, Closed);
        return None, input;
      }
      return Some(FormatOf(input.event, DEFAULT_FORMAT)), input;
    }

    method Transcribe(e: Event) returns (open: bool)
      requires Base() && Due(ServerMachine.Got(e)) && state == Top && KindOf(e.typ) == Protocol.Transcribe
      modifies this`flags, this`inputs, this`state, this`s, this`actions
      modifies io`pos, io`len, io.buf, io.fd`incoming, io.fd`outgoing, io.fd`script
      ensures Valid() && state == (if open then Top else Closed) && |io.Pending()| <= |old(io.Pending())|
    {
      hide Delivers, Takes, BuildInfo, Sendable, Replies, SpeechEvents, OnSynthesize, OnStreaming, OnCollect,
           OnStreamStart;
      ghost var t := Turn(state, s, actions);
      var language := AsText(Field(e, LANGUAGE));
      if engine.asr.None? {
        Settle(ServerMachine.Got(e), t, Top);
        return true;
      }
      Settle(ServerMachine.Got(e), t, AwaitBatch(language));
      open := TranscribeBatch(language);
    }

    /** From the audio-start to the transcript. */
    method TranscribeBatch(language: Option<seq<byte>>) returns (open: bool)
      requires Valid() && state == AwaitBatch(language)
      modifies this`flags, this`inputs, this`state, this`s, this`actions
      modifies io`pos, io`len, io.buf, io.fd`incoming, io.fd`outgoing, io.fd`script
      ensures Valid() && state == (if open then Top else Closed) && |io.Pending()| <= |old(io.Pending())|
    {
      hide Delivers, Takes, BuildInfo, Sendable, Replies, SpeechEvents, OnRequest, OnStreaming, OnCollect,
           OnStreamStart;
      var format, input := AwaitStart();
      if format == None {
        return false;
      }
      Settle(input, Turn(state, s, actions), Collect(language, format.value, []));
      var gotStop, pcm := CollectAudio(language, format.value);
      if gotStop {
        Recognize(language, format.value, pcm);
      }
      return true;
    }

    /** Chunk after chunk into the growing buffer, until audio-stop, a failed read or the end of the server. */
    method CollectAudio(language: Option<seq<byte>>, format: Format) returns (gotStop: bool, pcm: seq<Sample>)
      requires Valid() && state == Collect(language, format, [])
      modifies this`flags, this`inputs, this`state, io`pos, io`len, io.buf, io.fd`incoming, io.fd`script
      ensures io.Valid() && |io.Pending()| <= |old(io.Pending())|
      ensures !gotStop ==> Valid() && state == Top
      ensures gotStop ==> Base() && inputs != [] && Due(inputs[|inputs| - 1]) && IsStop(inputs[|inputs| - 1])
                          && state == Collect(language, format, pcm)
    {
      hide Delivers, Takes, BuildInfo, Sendable, Replies, SpeechEvents, OnRequest, OnStreaming, OnCollect,
           OnStreamStart;
      var collector := new Collector(COLLECT_CAPACITY);
      var more := true;
      gotStop := false;
      while more
        invariant collector.Valid() && fresh(collector) && fresh(collector.pcm)
        invariant io.Valid() && |io.Pending()| <= |old(io.Pending())|
        invariant more ==> Valid() && state == Collect(language, format, collector.Contents())
        invariant !more && !gotStop ==> Valid() && state == Top
        invariant !more && gotStop
          ==> Base() && inputs != [] && Due(inputs[|inputs| - 1]) && IsStop(inputs[|inputs| - 1])
                                       && state == Collect(language, format, collector.Contents())
        decreases |io.Pending()|, more
      {
        more, gotStop := CollectNext(collector, language, format);
      }
      return gotStop, collector.pcm[..collector.total];
    }

    method CollectNext(collector: Collector, language: Option<seq<byte>>, format: Format)
      returns (more: bool, gotStop: bool)
      requires Valid() && collector.Valid() && state == Collect(language, format, collector.Contents())
      modifies this`flags, this`inputs, this`state, io`pos, io`len, io.buf, io.fd`incoming, io.fd`script
      modifies collector`pcm, collector`total, collector`growths, collector.pcm
      ensures collector.Valid() && (collector.pcm == old(collector.pcm) || fresh(collector.pcm))
      ensures io.Valid() && |io.Pending()| <= |old(io.Pending())| && (more ==> |io.Pending()| < |old(io.Pending())|)
      ensures more ==> Valid() && state == Collect(language, format, collector.Contents())
      ensures !more && !gotStop ==> Valid() && state == Top
      ensures !more && gotStop ==> Base() && inputs != [] && Due(inputs[|inputs| - 1]) && IsStop(inputs[|inputs| - 1])
                                   && state == Collect(language, format, collector.Contents())
    {
      hide Delivers, Takes, BuildInfo, Sendable, Replies, SpeechEvents, OnRequest, OnStreaming, OnStreamStart;
      var input := Next(true);
      if !input.Got? {
        Settle(input, Turn(state, s, actions), Top);
        return false, false;
      }
      if KindOf(input.event.typ) == AudioStop {
        return false, true;
      }
      Keep(collector, language, format, input);
      return true, false;
    }

    /** One event while audio is being collected. */
    method Keep(collector: Collector, language: Option<seq<byte>>, format: Format, input: Input)
      requires Base() && Due(input) && input.Got? && KindOf(input.event.typ) != AudioStop
      requires collector.Valid() && state == Collect(language, format, collector.Contents())
      modifies this`state, collector`pcm, collector`total, collector`growths, collector.pcm
      ensures Valid() && collector.Valid() && state == Collect(language, format, collector.Contents())
      ensures collector.pcm == old(collector.pcm) || fresh(collector.pcm)
    {
      hide Delivers, Takes, BuildInfo, Sendable, Replies, SpeechEvents, OnRequest, OnStreaming, OnStreamStart,
           OnBatchEnd;
      ghost var t := Turn(state, s, actions);
      if KindOf(input.event.typ) == AudioChunk {
        collector.Append(ToSamples(input.event.payload));
      }
      ghost var next := Collect(language, format, collector.Contents());
      assert t.actions + [] == t.actions && Step(engine, offer, t.state, s, input) == Turn(next, s, []);
      Settle(input, t, next);
    }

    /** The engine's text for the collected audio, if there is any audio. */
    method Recognize(language: Option<seq<byte>>, format: Format, pcm: seq<Sample>)
      requires Base() && inputs != [] && Due(inputs[|inputs| - 1]) && IsStop(inputs[|inputs| - 1])
      requires state == Collect(language, format, pcm)
      modifies this`state, this`s, this`actions, io.fd`outgoing, io.fd`script
      ensures Valid() && state == Top
    {
      hide Delivers, Takes, BuildInfo, Sendable, Replies, SpeechEvents, OnRequest, OnStreaming, OnStreamStart;
      ghost var t, input := Turn(state, s, actions), inputs[|inputs| - 1];
      if |pcm| > 0 {
        var r := engine.asr.value(s, pcm, format, language);
        s := r.0;
        TranscriptTravels(TextOr(r.1), false);
        Send(TranscriptEvent(TextOr(r.1), false));
      } else {
        assert t.actions + [] == t.actions;
      }
      assert Step(engine, offer, t.state, t.s, input) == OnBatchEnd(engine, t.s, t.state);
      Settle(input, t, Top);
    }

    // -------- transcribe-start

    method TranscribeStream(e: Event) returns (open: bool)
      requires Base() && Due(ServerMachine.Got(e)) && state == Top && KindOf(e.typ) == Protocol.TranscribeStart
      modifies this`flags, this`inputs, this`state, this`s, this`actions
      modifies io`pos, io`len, io.buf, io.fd`incoming, io.fd`outgoing, io.fd`script
      ensures Valid() && state == (if open then Top else Closed) && |io.Pending()| <= |old(io.Pending())|
    {
      hide Delivers, Takes, BuildInfo, Sendable, Replies, SpeechEvents, OnSynthesize, OnStreaming, OnCollect,
           OnStreamStart;
      ghost var t := Turn(state, s, actions);
      var language := AsText(Field(e, LANGUAGE));
      if engine.create.None? || engine.process.None? {
        Settle(ServerMachine.Got(e), t, Top);
        return true;
      }
      Settle(ServerMachine.Got(e), t, AwaitStream(language));
      var format, input := AwaitStart();
      if format == None {
        return false;
      }
      var ctx := CreateStream(language, format.value, input);
      if ctx != 0 {
        ServeStream(ctx, format.value);
      }
      return true;
    }

    /** A stream from its first chunk to its end, with the event that may still follow the final transcript. */
    method ServeStream(ctx: nat, format: Format)
      requires Valid() && state == Streaming(ctx, format)
      modifies this`flags, this`inputs, this`state, this`s, this`actions
      modifies io`pos, io`len, io.buf, io.fd`incoming, io.fd`outgoing, io.fd`script
      ensures Valid() && state == Top && |io.Pending()| <= |old(io.Pending())|
    {
      var gotStop := StreamAudio(ctx, format);
      if gotStop {
        Drain(ctx);
      }
    }

    method Drain(ctx: nat)
      requires Valid() && state == Draining(ctx)
      modifies this`flags, this`inputs, this`state, this`s, this`actions
      modifies io`pos, io`len, io.buf, io.fd`incoming, io.fd`script
      ensures Valid() && state == Top && |io.Pending()| <= |old(io.Pending())|
    {
      hide Delivers, Takes, BuildInfo, Sendable, Replies, SpeechEvents, OnRequest, OnStreamStart, OnCollect,
           OnStreaming;
      var drained := Next(false);
      ghost var t := Turn(state, s, actions);
      Destroy(ctx);
      Settle(drained, t, Top);
    }

    method CreateStream(language: Option<seq<byte>>, format: Format, input: Input) returns (ctx: nat)
      requires Base() && Due(input) && IsStart(input) && state == AwaitStream(language)
      requires format == FormatOf(input.event, DEFAULT_FORMAT)
      modifies this`state, this`s, this`actions
      ensures Valid() && state == (if ctx == 0 then Top else Streaming(ctx, format))
    {
      hide Delivers, Takes, BuildInfo, Sendable, Replies, SpeechEvents, OnRequest, OnStreaming, OnCollect;
      ghost var t := Turn(state, s, actions);
      var r := engine.create.value(s, format, language);
      s, ctx := r.0, r.1;
      Log(Created(ctx));
      Settle(input, t, if ctx == 0 then Top else Streaming(ctx, format));
    }

    /** A call that writes nothing. */
    ghost method Log(a: Action)
      requires Writing() && !a.Sent?
      modifies this`actions
      ensures Writing() && actions == old(actions) + [a]
    {
      RepliesGrow(actions, a);
      actions := actions + [a];
      assert Replies(actions) == Replies(old(actions));
    }

    /** Chunk after chunk to the engine, partial transcripts to the client, then the final call and the
        final transcript; without a stop event the stream is destroyed at once. */
    method StreamAudio(ctx: nat, format: Format) returns (gotStop: bool)
      requires Valid() && state == Streaming(ctx, format)
      modifies this`flags, this`inputs, this`state, this`s, this`actions
      modifies io`pos, io`len, io.buf, io.fd`incoming, io.fd`outgoing, io.fd`script
      ensures Valid() && state == (if gotStop then Draining(ctx) else Top) && |io.Pending()| <= |old(io.Pending())|
    {
      hide Delivers, Takes, BuildInfo, Sendable, Replies, Step;
      while true
        invariant Valid() && state == Streaming(ctx, format) && |io.Pending()| <= |old(io.Pending())|
        decreases |io.Pending()|
      {
        var input := Next(true);
        var more := Answer(ctx, format, input);
        if !more {
          return input.Got?;
        }
      }
    }

    /** One observation while a stream is open. */
    method Answer(ctx: nat, format: Format, input: Input) returns (more: bool)
      requires Base() && Due(input) && state == Streaming(ctx, format)
      modifies this`state, this`s, this`actions, io.fd`outgoing, io.fd`script
      ensures Valid() && (more ==> input.Got?)
      ensures state == if more then Streaming(ctx, format) else if input.Got? then Draining(ctx) else Top
    {
      if !input.Got? {
        Abandon(ctx, format, input);
        return false;
      }
      var kind := KindOf(input.event.typ);
      if kind == AudioStop || kind == TranscribeStop {
        EndStream(ctx, format, input);
        return false;
      }
      Hear(ctx, format, input);
      return true;
    }

    /** A stop event: the final call and the final transcript. */
    method EndStream(ctx: nat, format: Format, input: Input)
      requires Base() && Due(input) && state == Streaming(ctx, format) && input.Got?
      requires KindOf(input.event.typ) == AudioStop || KindOf(input.event.typ) == TranscribeStop
      modifies this`state, this`s, this`actions, io.fd`outgoing, io.fd`script
      ensures Valid() && state == Draining(ctx)
    {
      hide Delivers, Takes, BuildInfo, Sendable, Replies, SpeechEvents, OnRequest, OnStreamStart, OnCollect,
           OnStreamChunk;
      ghost var t := Turn(state, s, actions);
      Finish(ctx, format);
      Settle(input, t, Draining(ctx));
    }

    /** An event of an open stream that does not end it. */
    method Hear(ctx: nat, format: Format, input: Input)
      requires Base() && Due(input) && state == Streaming(ctx, format) && input.Got?
      requires KindOf(input.event.typ) != AudioStop && KindOf(input.event.typ) != TranscribeStop
      modifies this`state, this`s, this`actions, io.fd`outgoing, io.fd`script
      ensures Valid() && state == Streaming(ctx, format)
    {
      hide Delivers, Takes, BuildInfo, Sendable, Replies, SpeechEvents, OnRequest, OnStreamStart, OnCollect,
           FinishStream;
      ghost var t := Turn(state, s, actions);
      if KindOf(input.event.typ) == AudioChunk && |input.event.payload| > 0 {
        Process(ctx, format, ToSamples(input.event.payload));
      }
      Settle(input, t, Streaming(ctx, format));
    }

    /** The end of a stream that got no stop event. */
    method Abandon(ctx: nat, format: Format, input: Input)
      requires Base() && Due(input) && state == Streaming(ctx, format) && !input.Got?
      modifies this`state, this`s, this`actions, io.fd`outgoing, io.fd`script
      ensures Valid() && state == Top
    {
      hide Delivers, Takes, BuildInfo, Sendable, Replies, SpeechEvents, OnRequest, OnStreamStart, OnCollect,
           FinishStream, OnStreamChunk, DestroyStream;
      ghost var t := Turn(state, s, actions);
      ghost var u := FinishStream(engine, Streaming(ctx, format), s);
      Finish(ctx, format);
      assert t.actions + u.actions + DestroyStream(engine, ctx, s).actions
          == t.actions + (u.actions + DestroyStream(engine, ctx, s).actions);
      Destroy(ctx);
      Settle(input, t, Top);
    }

    method Process(ctx: nat, format: Format, pcm: seq<Sample>)
      requires Writing() && engine.process.Some?
      modifies this`s, this`actions, io.fd`outgoing, io.fd`script
      ensures Writing()
      ensures var u := OnStreamChunk(engine, Streaming(ctx, format), old(s), pcm);
              s == u.s && actions == old(actions) + u.actions
    {
      var r := engine.process.value(s, ctx, pcm, format, false);
      s := r.0;
      Log(Processed(ctx, pcm));
      if r.1 && r.2.Some? && |r.2.value| > 0 {
        TranscriptTravels(r.2.value, true);
        Send(TranscriptEvent(r.2.value, true));
      }
    }

    method Finish(ctx: nat, format: Format)
      requires Writing() && engine.process.Some?
      modifies this`s, this`actions, io.fd`outgoing, io.fd`script
      ensures Writing()
      ensures var u := FinishStream(engine, Streaming(ctx, format), old(s));
              s == u.s && actions == old(actions) + u.actions
    {
      var r := engine.process.value(s, ctx, [], format, true);
      s := r.0;
      Log(Finished(ctx));
      TranscriptTravels(TextOr(r.2), false);
      Send(TranscriptEvent(TextOr(r.2), false));
    }

    method Destroy(ctx: nat)
      requires Writing()
      modifies this`s, this`actions
      ensures Writing()
      ensures var u := DestroyStream(engine, ctx, old(s)); s == u.s && actions == old(actions) + u.actions
    {
      if engine.destroy.Some? {
        s := engine.destroy.value(s, ctx);
        Log(Destroyed(ctx));
      } else {
        assert actions + [] == actions;
      }
    }

    // -------- the loop

    /** handle_client: what it did is what the machine makes of what it observed, up to the closed state. */
    method HandleClient()
      requires Valid() && Offering() && state == Top
      modifies this`flags, this`inputs, this`state, this`s, this`actions
      modifies io`pos, io`len, io.buf, io.fd`incoming, io.fd`outgoing, io.fd`script
      ensures Valid() && state == Closed
      ensures FollowAll(engine.destroy.Some?, NoStream, actions) == Some(NoStream)
    {
      Loop();
      StreamsLiveByTheRules(engine, offer, Top, first, inputs);
    }

    method Loop()
      requires Valid() && Offering() && state == Top
      modifies this`flags, this`inputs, this`state, this`s, this`actions
      modifies io`pos, io`len, io.buf, io.fd`incoming, io.fd`outgoing, io.fd`script
      ensures Valid() && state == Closed
    {
      hide Delivers, Takes, BuildInfo, Sendable, Replies, SpeechEvents, OnRequest, OnStreaming, OnCollect,
           OnStreamStart;
      while true
        invariant Valid() && Offering() && state == Top
        decreases |io.Pending()|
      {
        ghost var t := Turn(state, s, actions);
        var input := Next(true);
        if !input.Got? {
          Settle(input, t, Closed);
          return;
        }
        var open := Dispatch(input.event);
        if !open {
          return;
        }
      }
    }

    method Dispatch(e: Event) returns (open: bool)
      requires Base() && Offering() && Due(ServerMachine.Got(e)) && state == Top
      modifies this`flags, this`inputs, this`state, this`s, this`actions
      modifies io`pos, io`len, io.buf, io.fd`incoming, io.fd`outgoing, io.fd`script
      ensures Valid() && state == (if open then Top else Closed) && |io.Pending()| <= |old(io.Pending())|
    {
      hide Delivers, Takes, BuildInfo, Sendable, Replies, SpeechEvents, OnSynthesize, OnStreaming, OnCollect,
           OnStreamStart;
      open := true;
      match KindOf(e.typ) {
        case Describe => Describe(e);
        case Synthesize => Synthesize(e);
        case Transcribe => open := Transcribe(e);
        case TranscribeStart => open := TranscribeStream(e);
        case _ => Settle(ServerMachine.Got(e), Turn(state, s, actions), Top);
      }
    }
  }

  predicate IsStop(input: Input) {
    input.Got? && KindOf(input.event.typ) == AudioStop
  }

  lemma SendsMore(before: seq<Action>, sent: seq<Event>, e: Event)
    ensures before + Sends(sent + [e]) == before + Sends(sent) + [Sent(e)]
  {
  }

  /** The loop takes the chunks off the front of what is left. */
  lemma NextChunk(f: Format, pcm: seq<Sample>, offset: nat, chunk: nat, sent: seq<Event>)
    requires offset < |pcm| && chunk == Least(|pcm| - offset, AUDIO_CHUNK_SAMPLES)
    ensures sent + ChunkEvents(f, Chunks(pcm[offset..], AUDIO_CHUNK_SAMPLES))
            == sent + [ChunkEvent(f, pcm[offset..offset + chunk])]
               + ChunkEvents(f, Chunks(pcm[offset + chunk..], AUDIO_CHUNK_SAMPLES))
  {
    var rest := pcm[offset..];
    assert rest[..chunk] == pcm[offset..offset + chunk] && rest[chunk..] == pcm[offset + chunk..];
    var chunks := Chunks(rest, AUDIO_CHUNK_SAMPLES);
    if |rest| <= AUDIO_CHUNK_SAMPLES {
      assert rest[..chunk] == rest && rest[chunk..] == [];
    }
    assert chunks == [rest[..chunk]] + Chunks(rest[chunk..], AUDIO_CHUNK_SAMPLES);
    assert chunks[1..] == Chunks(rest[chunk..], AUDIO_CHUNK_SAMPLES);
  }
}
