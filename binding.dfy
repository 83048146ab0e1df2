/**
 * The Lua-facing operations of the binding: the `state` singleton (one model
 * handle and the sample buffer), `init`, `decode`, `newStream`, and the four
 * methods of a stream object.
 */
module Binding {
  import opened Wrappers
  import opened Samples
  import Config
  import opened DeepSpeech

  const N_CEP: int := 26
  const N_CONTEXT: int := 9
  const BEAM_WIDTH: int := 500
  const SAMPLE_RATE: int := 16000

  /** Each `luaL_error`/`luaL_argcheck` the operations can raise. */
  datatype Error =
    | ConfigNotTable                       // "Expected config to be a table"
    | BadConfig(reason: Config.ConfigError)
    | InitFailed                           // "DeepSpeech failed to initialize"
    | GrammarFailed                        // "Failed to set grammar"
    | NotInitialized                       // "DeepSpeech is not initialized"
    | BadSamples(cause: SampleError)
    | ExpectedSamples                      // "Expected a table or lightuserdata pointer for audio sample data"
    | StreamSetupFailed                    // "Could not create stream"

  /**
   * A sample argument as `lds_checksamples` and the NULL check after it leave
   * it, when `bufferSize` was `size`: the audio handed to the engine, or the error raised.
   */
  function SampleAudio(arg: SampleArg, size: nat): Result<Audio, Error>
  {
    match Outcome(arg, size)
    case Err(e) => Err(BadSamples(e))
    case Ok(Null) => Err(ExpectedSamples)
    case Ok(InBuffer(_)) => Ok(Buffered(Narrow(arg.values)))
    case Ok(Pointer(address, count)) => Ok(External(address, count))
  }

  /** A table reaches the engine exactly when it is all 16-bit and the buffer exists, and then sample for sample. */
  lemma TableAudio(vs: seq<int>, size: nat)
    ensures SampleAudio(Table(vs), size).Ok? <==>
              (forall j :: 0 <= j < |vs| ==> InRange(vs[j])) && (size > 0 || |vs| > 0)
    ensures SampleAudio(Table(vs), size).Ok? ==>
              var a := SampleAudio(Table(vs), size).value;
              a.Buffered? && |a.samples| == |vs| && forall j :: 0 <= j < |vs| ==> a.samples[j] as int == vs[j]
  {
  }

  /** A NULL light userdata never reaches the engine: it is refused like a wrong argument type. */
  lemma NullPointerRefused(n: int, size: nat)
    ensures SampleAudio(LightUserdata(0, Some(n)), size) == Err(ExpectedSamples)
    ensures SampleAudio(LightUserdata(0, None), size) == Err(BadSamples(CountNotInteger))
  {
  }

  /** The `DS_DestroyModel` call `init` makes first, if a model exists. */
  function Released(m: Option<ModelHandle>): seq<Call>
  {
    if m.Some? then [Call.DestroyModel(m.value)] else []
  }

  /** A stream object: one engine stream handle, NULL if the engine refused it. */
  class Stream {
    var handle: Option<StreamHandle>

    constructor (h: Option<StreamHandle>)
      ensures handle == h
    {
      handle := h;
    }
  }

  /** The static `state` of the binding, with the engine it talks to. */
  class State {
    var modelState: Option<ModelHandle>
    const samples: SampleBuffer
    const engine: Engine

    /** The engine has exactly the one model `modelState` names live, or none. */
    ghost predicate Valid()
      reads this, samples, engine
    {
      samples.Valid() && engine.Valid() && engine.liveModels == Handles(modelState)
    }

    /** The stream's handle was issued by this binding's engine (or is NULL). */
    ghost predicate Issued(s: Stream)
      reads this, engine, s
    {
      s.handle.Some? ==> s.handle.value < engine.nextHandle
    }

    /** Process start: no model, an empty buffer, an engine that has seen nothing. */
    constructor ()
      ensures Valid() && fresh(samples) && fresh(samples.buffer) && fresh(engine)
      ensures modelState == None && samples.bufferSize == 0
      ensures engine.calls == [] && engine.liveStreams == map[]
    {
      modelState := None;
      samples := new SampleBuffer();
      engine := new Engine();
    }

    /** `lds_init`. */
    method Init(arg: Config.Argument, createAccepts: bool, lmAccepts: bool) returns (r: Result<bool, Error>)
      requires Valid()
      modifies this, engine
      ensures Valid()
      ensures engine.liveStreams == old(engine.liveStreams)
      ensures engine.nextHandle >= old(engine.nextHandle)
      // the table check comes before anything else: a non-table leaves the old model in place
      ensures arg.NotATable? ==>
                && r == Err(ConfigNotTable) && modelState == old(modelState) && engine.calls == old(engine.calls)
                && engine.nextHandle == old(engine.nextHandle)
      ensures arg.ConfigTable? ==>
                match Config.Validate(arg)
                case Err(e) =>
                  // the old model is gone even though the config is refused
                  && r == Err(BadConfig(e)) && modelState == None
                  && engine.calls == old(engine.calls) + Released(old(modelState))
                  && engine.nextHandle == old(engine.nextHandle)
                case Ok(s) =>
                  var created := old(engine.calls) + Released(old(modelState))
                                 + [Call.CreateModel(s.model, N_CEP, N_CONTEXT, s.alphabet, BEAM_WIDTH)];
                  if !createAccepts then
                    r == Err(InitFailed) && modelState == None && engine.calls == created
                  else
                    && modelState.Some?
                    && modelState.value !in old(engine.liveModels) && modelState.value >= old(engine.nextHandle)
                    && (s.languageModel.None? ==> r == Ok(true) && engine.calls == created)
                    // a refused language model still leaves the new model live
                    && (s.languageModel.Some? ==>
                          && r == (if lmAccepts then Ok(true) else Err(GrammarFailed))
                          && engine.calls == created + [Call.EnableDecoderWithLM(modelState.value, s.alphabet,
                                                          s.languageModel.value.grammar, s.languageModel.value.trie)])
    {
      if arg.NotATable? {
        return Err(ConfigNotTable);
      }
      if modelState.Some? {
        engine.DestroyModel(modelState.value);
        modelState := None;
      }
      var v := Config.Validate(arg);
      if v.Err? {
        return Err(BadConfig(v.error));
      }
      var s := v.value;
      modelState := engine.CreateModel(s.model, N_CEP, N_CONTEXT, s.alphabet, BEAM_WIDTH, createAccepts);
      if modelState.None? {
        return Err(InitFailed);
      }
      if s.languageModel.Some? {
        var lm := s.languageModel.value;
        var ok := engine.EnableDecoderWithLM(modelState.value, s.alphabet, lm.grammar, lm.trie, lmAccepts);
        if !ok {
          return Err(GrammarFailed);
        }
      }
      r := Ok(true);
    }

    /** `lds_checksamples` followed by the callers' NULL check. */
    method CheckedAudio(arg: SampleArg) returns (a: Result<Audio, Error>)
      requires samples.Valid()
      modifies samples, samples.buffer
      ensures samples.Valid()
      ensures fresh(samples.buffer) || samples.buffer == old(samples.buffer)
      ensures a == SampleAudio(arg, old(samples.bufferSize))
      ensures samples.bufferSize == if arg.Table? then NewCapacity(old(samples.bufferSize), |arg.values|)
                                    else old(samples.bufferSize)
    {
      var v := samples.CheckSamples(arg);
      match v
      case Err(e) =>
        a := Err(BadSamples(e));
      case Ok(view) =>
        match view
        case Null =>
          a := Err(ExpectedSamples);
        case InBuffer(n) =>
          var contents := samples.buffer[..n];
          assert contents == Narrow(arg.values) by {
            assert forall j :: 0 <= j < n ==> contents[j] as int == Narrow(arg.values)[j] as int;
          }
          a := Ok(Buffered(contents));
        case Pointer(address, count) =>
          a := Ok(External(address, count));
    }

    /** `lds_decode`: the model check comes before the samples are looked at. */
    method Decode(arg: SampleArg, transcript: string) returns (r: Result<string, Error>)
      requires Valid()
      modifies samples, samples.buffer, engine
      ensures Valid()
      ensures fresh(samples.buffer) || samples.buffer == old(samples.buffer)
      ensures engine.liveStreams == old(engine.liveStreams) && engine.nextHandle == old(engine.nextHandle)
      ensures modelState.None? ==>
                && r == Err(NotInitialized) && engine.calls == old(engine.calls)
                && samples.bufferSize == old(samples.bufferSize) && samples.buffer == old(samples.buffer)
                && samples.buffer[..] == old(samples.buffer[..])
      ensures modelState.Some? ==>
                samples.bufferSize == if arg.Table? then NewCapacity(old(samples.bufferSize), |arg.values|)
                                      else old(samples.bufferSize)
      ensures modelState.Some? ==>
                match SampleAudio(arg, old(samples.bufferSize))
                case Err(e) => r == Err(e) && engine.calls == old(engine.calls)
                case Ok(audio) =>
                  && r == Ok(transcript)
                  && engine.calls == old(engine.calls) + [Call.SpeechToText(modelState.value, audio, SAMPLE_RATE)]
    {
      if modelState.None? {
        return Err(NotInitialized);
      }
      var audio := CheckedAudio(arg);
      if audio.Err? {
        return Err(audio.error);
      }
      var text := engine.SpeechToText(modelState.value, audio.value, SAMPLE_RATE, transcript);
      r := Ok(text);
    }

    /** `lds_newStream`. */
    method NewStream(setupAccepts: bool) returns (r: Result<Stream, Error>)
      requires Valid()
      modifies engine
      ensures Valid()
      ensures engine.liveModels == old(engine.liveModels) && engine.nextHandle >= old(engine.nextHandle)
      ensures modelState.None? ==>
                r == Err(NotInitialized) && engine.calls == old(engine.calls)
                && engine.liveStreams == old(engine.liveStreams)
      ensures modelState.Some? ==> engine.calls == old(engine.calls) + [Call.SetupStream(modelState, SAMPLE_RATE)]
      ensures modelState.Some? && !setupAccepts ==>
                r == Err(StreamSetupFailed) && engine.liveStreams == old(engine.liveStreams)
      // a new object owning a never-issued handle bound to the current model
      ensures modelState.Some? && setupAccepts ==>
                && r.Ok? && fresh(r.value) && Issued(r.value) && r.value.handle.Some?
                && r.value.handle.value >= old(engine.nextHandle)
                && engine.liveStreams == old(engine.liveStreams)[r.value.handle.value := modelState.value]
    {
      if modelState.None? {
        return Err(NotInitialized);
      }
      var h := engine.SetupStream(modelState, SAMPLE_RATE, setupAccepts);
      if h.None? {
        return Err(StreamSetupFailed);
      }
      var stream := new Stream(h);
      r := Ok(stream);
    }

    /** `lds_stream_push`: no model check; the stream's handle is left as it is. */
    method StreamPush(s: Stream, arg: SampleArg) returns (r: Result<(), Error>)
      requires Valid()
      modifies samples, samples.buffer, engine
      ensures Valid()
      ensures fresh(samples.buffer) || samples.buffer == old(samples.buffer)
      ensures s.handle == old(s.handle)
      ensures engine.liveModels == old(engine.liveModels) && engine.liveStreams == old(engine.liveStreams)
      ensures engine.nextHandle == old(engine.nextHandle)
      ensures samples.bufferSize == if arg.Table? then NewCapacity(old(samples.bufferSize), |arg.values|)
                                    else old(samples.bufferSize)
      ensures match SampleAudio(arg, old(samples.bufferSize))
              case Err(e) => r == Err(e) && engine.calls == old(engine.calls)
              case Ok(audio) =>
                r == Ok(()) && engine.calls == old(engine.calls) + [Call.FeedAudioContent(s.handle, audio)]
    {
      var audio := CheckedAudio(arg);
      if audio.Err? {
        return Err(audio.error);
      }
      engine.FeedAudioContent(s.handle, audio.value);
      r := Ok(());
    }

    /** `lds_stream_decode`: an intermediate transcript; the stream's handle is left as it is. */
    method StreamDecode(s: Stream, transcript: string) returns (text: string)
      requires Valid()
      modifies engine
      ensures Valid()
      ensures s.handle == old(s.handle) && text == transcript
      ensures engine.calls == old(engine.calls) + [Call.IntermediateDecode(s.handle)]
      ensures engine.liveModels == old(engine.liveModels) && engine.liveStreams == old(engine.liveStreams)
      ensures engine.nextHandle == old(engine.nextHandle)
    {
      text := engine.IntermediateDecode(s.handle, transcript);
    }

    /** `lds_stream_finish`: the final transcript, then the stream is rebound to a new handle from the current model. */
    method StreamFinish(s: Stream, transcript: string, setupAccepts: bool) returns (text: string)
      requires Valid()
      modifies s, engine
      ensures Valid() && Issued(s)
      ensures text == transcript
      ensures engine.calls == old(engine.calls)
                + [Call.FinishStream(old(s.handle)), Call.SetupStream(modelState, SAMPLE_RATE)]
      ensures engine.liveModels == old(engine.liveModels) && engine.nextHandle >= old(engine.nextHandle)
      ensures s.handle.Some? <==> modelState.Some? && setupAccepts
      ensures s.handle.Some? ==>
                && s.handle.value >= old(engine.nextHandle)
                && engine.liveStreams == (old(engine.liveStreams) - Handles(old(s.handle)))[s.handle.value := modelState.value]
      ensures s.handle.None? ==> engine.liveStreams == old(engine.liveStreams) - Handles(old(s.handle))
    {
      text := engine.FinishStream(s.handle, transcript);
      s.handle := engine.SetupStream(modelState, SAMPLE_RATE, setupAccepts);
    }

    /** `lds_stream_clear`: the stream's audio is dropped and it is rebound to a new handle from the current model. */
    method StreamClear(s: Stream, setupAccepts: bool)
      requires Valid()
      modifies s, engine
      ensures Valid() && Issued(s)
      ensures engine.calls == old(engine.calls)
                + [Call.DiscardStream(old(s.handle)), Call.SetupStream(modelState, SAMPLE_RATE)]
      ensures engine.liveModels == old(engine.liveModels) && engine.nextHandle >= old(engine.nextHandle)
      ensures s.handle.Some? <==> modelState.Some? && setupAccepts
      ensures s.handle.Some? ==>
                && s.handle.value >= old(engine.nextHandle)
                && engine.liveStreams == (old(engine.liveStreams) - Handles(old(s.handle)))[s.handle.value := modelState.value]
      ensures s.handle.None? ==> engine.liveStreams == old(engine.liveStreams) - Handles(old(s.handle))
    {
      engine.DiscardStream(s.handle);
      s.handle := engine.SetupStream(modelState, SAMPLE_RATE, setupAccepts);
    }
  }
}
