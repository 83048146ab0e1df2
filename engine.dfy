/**
 * The DeepSpeech engine as the binding sees it: a supplier of opaque model and
 * stream handles. Whether the engine accepts a request and what text it
 * produces are parameters; the engine records every call it receives, hands
 * out handles never issued before, and tracks which handles are live.
 */
module DeepSpeech {
  import opened Wrappers
  import opened Samples

  type ModelHandle = nat
  type StreamHandle = nat

  /** The audio a call passes: the binding's buffer contents, or a caller-owned pointer and count. */
  datatype Audio = Buffered(samples: seq<int16>) | External(address: nat, count: nat)

  /** One call into the engine; a `None` handle is a NULL pointer. */
  datatype Call =
    | CreateModel(modelPath: string, nCep: int, nContext: int, alphabetPath: string, beamWidth: int)
    | DestroyModel(model: ModelHandle)
    | EnableDecoderWithLM(model: ModelHandle, alphabetPath: string, grammarPath: string, triePath: string)
    | SpeechToText(model: ModelHandle, audio: Audio, sampleRate: int)
    | SetupStream(fromModel: Option<ModelHandle>, sampleRate: int)
    | FeedAudioContent(stream: Option<StreamHandle>, audio: Audio)
    | IntermediateDecode(stream: Option<StreamHandle>)
    | FinishStream(stream: Option<StreamHandle>)
    | DiscardStream(stream: Option<StreamHandle>)

  /** The handles a possibly-NULL handle names. */
  function Handles(h: Option<nat>): (s: set<nat>)
    ensures forall x :: x in s <==> h == Some(x)
  {
    if h.Some? then {h.value} else {}
  }

  class Engine {
    var nextHandle: nat
    var liveModels: set<ModelHandle>
    /** each live stream handle, with the model it was set up from */
    var liveStreams: map<StreamHandle, ModelHandle>
    var calls: seq<Call>

    /** Every handle ever issued is below `nextHandle`. */
    ghost predicate Valid()
      reads this
    {
      && (forall m :: m in liveModels ==> m < nextHandle)
      && (forall s :: s in liveStreams ==> s < nextHandle)
    }

    constructor ()
      ensures Valid()
      ensures liveModels == {} && liveStreams == map[] && calls == []
    {
      nextHandle, liveModels, liveStreams, calls := 0, {}, map[], [];
    }

    /** `DS_CreateModel`: a fresh live model when the engine accepts, none otherwise. */
    method CreateModel(modelPath: string, nCep: int, nContext: int, alphabetPath: string, beamWidth: int,
                       accepts: bool) returns (m: Option<ModelHandle>)
      requires Valid()
      modifies this
      ensures Valid()
      ensures calls == old(calls) + [Call.CreateModel(modelPath, nCep, nContext, alphabetPath, beamWidth)]
      ensures liveStreams == old(liveStreams)
      ensures m.Some? <==> accepts
      ensures accepts ==> m.value !in old(liveModels) && m.value !in old(liveStreams)
      ensures m.Some? ==> m.value == old(nextHandle) && nextHandle == old(nextHandle) + 1
      ensures m.None? ==> nextHandle == old(nextHandle)
      ensures liveModels == old(liveModels) + Handles(m)
    {
      calls := calls + [Call.CreateModel(modelPath, nCep, nContext, alphabetPath, beamWidth)];
      if accepts {
        m := Some(nextHandle);
        liveModels := liveModels + {nextHandle};
        nextHandle := nextHandle + 1;
      } else {
        m := None;
      }
    }

    /** `DS_DestroyModel`: the model is released; streams set up from it are not. */
    method DestroyModel(m: ModelHandle)
      requires Valid()
      modifies this
      ensures Valid()
      ensures calls == old(calls) + [Call.DestroyModel(m)]
      ensures liveModels == old(liveModels) - {m} && liveStreams == old(liveStreams)
      ensures nextHandle == old(nextHandle)
    {
      calls := calls + [Call.DestroyModel(m)];
      liveModels := liveModels - {m};
    }

    /** `DS_EnableDecoderWithLM`: `ok` is whether the engine returned 0. */
    method EnableDecoderWithLM(m: ModelHandle, alphabetPath: string, grammarPath: string, triePath: string,
                               accepts: bool) returns (ok: bool)
      requires Valid()
      modifies this
      ensures Valid()
      ensures calls == old(calls) + [Call.EnableDecoderWithLM(m, alphabetPath, grammarPath, triePath)]
      ensures ok == accepts
      ensures liveModels == old(liveModels) && liveStreams == old(liveStreams) && nextHandle == old(nextHandle)
    {
      calls := calls + [Call.EnableDecoderWithLM(m, alphabetPath, grammarPath, triePath)];
      ok := accepts;
    }

    /** `DS_SpeechToText`: the engine's transcript of `audio`. */
    method SpeechToText(m: ModelHandle, audio: Audio, sampleRate: int, transcript: string) returns (text: string)
      requires Valid()
      modifies this
      ensures Valid()
      ensures calls == old(calls) + [Call.SpeechToText(m, audio, sampleRate)] && text == transcript
      ensures liveModels == old(liveModels) && liveStreams == old(liveStreams) && nextHandle == old(nextHandle)
    {
      calls := calls + [Call.SpeechToText(m, audio, sampleRate)];
      text := transcript;
    }

    /** `DS_SetupStream`: a fresh live stream bound to `m` when there is a model and the engine accepts; NULL otherwise. */
    method SetupStream(m: Option<ModelHandle>, sampleRate: int, accepts: bool) returns (s: Option<StreamHandle>)
      requires Valid()
      modifies this
      ensures Valid()
      ensures calls == old(calls) + [Call.SetupStream(m, sampleRate)]
      ensures s.Some? <==> accepts && m.Some?
      ensures s.Some? ==> s.value !in old(liveStreams) && s.value !in old(liveModels)
      ensures s.Some? ==> s.value == old(nextHandle) && nextHandle == old(nextHandle) + 1
      ensures s.None? ==> nextHandle == old(nextHandle)
      ensures liveStreams == if s.Some? then old(liveStreams)[s.value := m.value] else old(liveStreams)
      ensures liveModels == old(liveModels)
    {
      calls := calls + [Call.SetupStream(m, sampleRate)];
      if accepts && m.Some? {
        s := Some(nextHandle);
        liveStreams := liveStreams[nextHandle := m.value];
        nextHandle := nextHandle + 1;
      } else {
        s := None;
      }
    }

    /** `DS_FeedAudioContent`. */
    method FeedAudioContent(s: Option<StreamHandle>, audio: Audio)
      requires Valid()
      modifies this
      ensures Valid()
      ensures calls == old(calls) + [Call.FeedAudioContent(s, audio)]
      ensures liveModels == old(liveModels) && liveStreams == old(liveStreams) && nextHandle == old(nextHandle)
    {
      calls := calls + [Call.FeedAudioContent(s, audio)];
    }

    /** `DS_IntermediateDecode`: the engine's transcript so far; the stream stays live. */
    method IntermediateDecode(s: Option<StreamHandle>, transcript: string) returns (text: string)
      requires Valid()
      modifies this
      ensures Valid()
      ensures calls == old(calls) + [Call.IntermediateDecode(s)] && text == transcript
      ensures liveModels == old(liveModels) && liveStreams == old(liveStreams) && nextHandle == old(nextHandle)
    {
      calls := calls + [Call.IntermediateDecode(s)];
      text := transcript;
    }

    /** `DS_FinishStream`: the final transcript; the stream is released. */
    method FinishStream(s: Option<StreamHandle>, transcript: string) returns (text: string)
      requires Valid()
      modifies this
      ensures Valid()
      ensures calls == old(calls) + [Call.FinishStream(s)] && text == transcript
      ensures liveStreams == old(liveStreams) - Handles(s)
      ensures liveModels == old(liveModels) && nextHandle == old(nextHandle)
    {
      calls := calls + [Call.FinishStream(s)];
      liveStreams := liveStreams - Handles(s);
      text := transcript;
    }

    /** `DS_DiscardStream`: the stream is released without a transcript. */
    method DiscardStream(s: Option<StreamHandle>)
      requires Valid()
      modifies this
      ensures Valid()
      ensures calls == old(calls) + [Call.DiscardStream(s)]
      ensures liveStreams == old(liveStreams) - Handles(s)
      ensures liveModels == old(liveModels) && nextHandle == old(nextHandle)
    {
      calls := calls + [Call.DiscardStream(s)];
      liveStreams := liveStreams - Handles(s);
    }
  }
}
