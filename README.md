# lua-deepspeech, modelled in Dafny

`lua_deepspeech.c` is a Lua module that wraps the DeepSpeech speech-to-text
engine. This project models the logic the binding itself owns:

- **The sample buffer** (`lds_checksamples`). There is one process-wide buffer
  of C shorts. Its capacity `bufferSize` only grows, by doubling. A Lua table
  of integers is copied into it, and each element is checked against
  [-32768, 32767]. The first bad element is reported by its 1-based index.
  A non-NULL light-userdata pointer and the integer after it pass through
  unchecked. A NULL light userdata, and any other argument, gives NULL.
  (`samples.dfy`: class `SampleBuffer`, with pure specification functions.)
- **The config checks** that `lds_init` makes: `model` and `alphabet` must be
  strings, and `grammar`/`trie` must be both nil or both strings. The checks
  run in a fixed order and each has its own message.
  (`config.dfy`: pure functions.)
- **The session and stream lifecycle.** The `state` singleton holds the one
  model handle. `init` destroys any existing model, then validates and creates
  a new one. `decode` and `newStream` need a model. A stream object owns one
  engine handle. `finish` and `clear` rebind it to a new handle set up from the
  current model. `push` and the stream's `decode` leave it alone.
  (`binding.dfy`: classes `State` and `Stream`.)

The engine is modelled as an abstract class, `DeepSpeech.Engine`
(`engine.dfy`). It hands out handle ids that were never issued before. It
tracks the live model handles, and the live stream handles with the model each
was set up from. It records every call the binding makes, with the constants
passed (`N_CEP` 26, `N_CONTEXT` 9, `BEAM_WIDTH` 500, `SAMPLE_RATE` 16000). Two
things the binding cannot see become method parameters: whether the engine
accepts a request, and the text it returns.

The class invariant `Binding.State.Valid()` says the engine has exactly the model
in `modelState` live, or none. So at most one model is ever live. Every
operation preserves it.

`scenarios.dfy` holds three callers that rely only on these contracts:
two `init` calls in a row, `finish`/`push`/`finish` on one stream, and a whole
session that ends with a refused sample.

Behaviour of the code as written that the model keeps:

- `luaL_argcheck` for a non-table config runs *before* the old model is
  destroyed, so that error keeps the old model. Every later config error comes
  after the model is destroyed, so it leaves no model.
- If `DS_EnableDecoderWithLM` fails, `init` raises "Failed to set grammar",
  but the model it just created stays live and `decode` can use it.
- An empty table passed before the buffer has ever grown makes
  `lds_checksamples` return `state.buffer`, which is still NULL. Callers then
  raise "Expected a table or lightuserdata pointer for audio sample data".
- A nil `grammar` with a `trie` set is refused with the message
  "config.trie is required when config.grammar is set".
- `push`, `finish` and `clear` do not check that a model exists. With no
  model, `finish` and `clear` pass a NULL model to `DS_SetupStream`. What
  happens then is up to the engine; the model takes the resulting handle to
  be NULL.
- The count after a light userdata is a `lua_Integer` stored into `size_t`, so
  a negative count wraps modulo 2^64.

The code has `alphabet`/`grammar`/`trie` options. It has no scorer, beam
width or alpha/beta options, no metadata decoding, no hot words, and no stream
or model destroy or `__gc`. `init` returns `true`.

## Model

| member | source | states |
|---|---|---|
| `Samples.FirstOutOfRange` | lua_deepspeech.c:36-46 | gives the first position whose element is outside [-32768, 32767], or the length when there is none; every element before it is in range |
| `Samples.Narrow` | lua_deepspeech.c:45 | a range-checked table becomes the same values as shorts, in order, with the same length |
| `Samples.ToSize` | lua_deepspeech.c:50 | the count after a light userdata is the integer modulo 2^64: unchanged when in [0, 2^64), plus 2^64 when negative |
| `Samples.DoubleUntil` | lua_deepspeech.c:32 | repeated doubling ends at a size no smaller than where it started and at least the request |
| `Samples.NewCapacity` | lua_deepspeech.c:30-34 | after a table of n samples the capacity is at least n and at least the old one, unchanged when the old one was already at least n, and zero only when both were zero |
| `Samples.DoublingShape` | lua_deepspeech.c:32 | doubling m·2^j until n is reached ends at m·2^k for some k ≥ j, where k = 1 or m·2^(k-1) is below n |
| `Samples.GrowthIsLeastDoubling` | lua_deepspeech.c:31-32 | when growth happens the new size is max(old,1)·2^k for the least k ≥ 1 that reaches n |
| `Samples.DoublingOvershoot` | lua_deepspeech.c:32 | doubling that starts below 2·n with half below n ends at most at 2·n, and with half below n |
| `Samples.GrowthBound` | lua_deepspeech.c:31-32 | the grown size is at most 2·n, and for n ≥ 2 half of it is below n |
| `Samples.CapacityCoversEveryRequest` | lua_deepspeech.c:30-34 | after any series of table calls the capacity is at least every count requested and at least the starting capacity |
| `Samples.TableAcceptedIff` | lua_deepspeech.c:36-48 | a table is accepted exactly when all its elements are 16-bit; once the buffer exists, all n samples are then in the buffer |
| `Samples.TableRejectsFirstBad` | lua_deepspeech.c:41-45 | the first out-of-range element at position i is reported as index i+1 with its value |
| `Samples.EmptyTableBeforeFirstGrowth` | lua_deepspeech.c:30-48 | an empty table on a never-grown buffer yields NULL; on a grown buffer it yields the buffer with count 0 |
| `Samples.PointerUnchecked` | lua_deepspeech.c:49-50 | a non-NULL light userdata with an integer after it is always accepted, whatever the count, and a negative count wraps around; a NULL one yields NULL |
| `Samples.AsWrittenAllocationTooSmall` | lua_deepspeech.c:33 | as written, every growth for n ≥ 2 samples allocates room for fewer than n shorts |
| `Samples.AsWrittenOverflowWithoutGrowth` | lua_deepspeech.c:30-33 | as written, a table of n samples with `bufferSize` in [n, 2n) causes no reallocation, yet the earlier allocation holds fewer than n shorts |
| `Samples.AsWrittenTwoSamples` | lua_deepspeech.c:33 | a two-sample table on a fresh buffer gets capacity 2, that is 2 bytes, which hold one short |
| `Samples.CorrectedAllocationCovers` | lua_deepspeech.c:33 | with one short's worth of bytes per element, the allocation holds exactly `bufferSize` shorts, which is at least the table length |
| `Samples.SampleBuffer.constructor` | lua_deepspeech.c:16-20 | the static buffer starts with capacity 0 |
| `Samples.SampleBuffer.CheckSamples` | lua_deepspeech.c:26-54 | the result is the specified outcome for the argument. On a table, the capacity becomes `NewCapacity` and the array is reallocated only when it grows. Every element before the first bad one (all of them when none is bad) is written in order, and the rest of the old contents survive. A NULL light userdata yields NULL after the count check. Other arguments leave capacity and contents untouched |
| `Config.Validate` | lua_deepspeech.c:71-92 | accepts exactly the configs with string `model` and `alphabet`, where `grammar` and `trie` are both nil or both strings, and returns their paths. Each error is raised exactly when every earlier check passed and its own check fails |
| `Config.MessagesIdentifyErrors` | lua_deepspeech.c:72-90 | the five checks raise five different messages |
| `Config.TrieWithoutGrammar` | lua_deepspeech.c:89 | a nil `grammar` with a set `trie` is refused with the "trie is required" error |
| `DeepSpeech.Engine.CreateModel` | lua_deepspeech.c:94 | records the call with its paths and constants; on acceptance it adds one new, never-issued model handle |
| `DeepSpeech.Engine.DestroyModel` | lua_deepspeech.c:60 | records the call; the model is no longer live; the streams set up from it are not released |
| `DeepSpeech.Engine.EnableDecoderWithLM` | lua_deepspeech.c:97 | records the call with the model and the three paths; the status is the engine's |
| `DeepSpeech.Engine.SpeechToText` | lua_deepspeech.c:109 | records the model, the audio and the sample rate; returns the engine's text |
| `DeepSpeech.Engine.SetupStream` | lua_deepspeech.c:118 | records the call; given a model and acceptance it makes a new live stream bound to that model, otherwise a NULL handle |
| `DeepSpeech.Engine.FeedAudioContent` | lua_deepspeech.c:129 | records the stream and the audio; nothing is released or created |
| `DeepSpeech.Engine.IntermediateDecode` | lua_deepspeech.c:135 | records the call; the stream stays live; returns the engine's text |
| `DeepSpeech.Engine.FinishStream` | lua_deepspeech.c:143 | records the call; the stream is released; returns the engine's text |
| `DeepSpeech.Engine.DiscardStream` | lua_deepspeech.c:152 | records the call; the stream is released |
| `Binding.TableAudio` | lua_deepspeech.c:26-53 | a table reaches the engine exactly when all its elements are 16-bit and the buffer exists, and then as the same samples in order |
| `Binding.NullPointerRefused` | lua_deepspeech.c:49-53 | a NULL light userdata with an integer count is refused with the "Expected a table or lightuserdata" error, and without one with the count error |
| `Binding.Stream.constructor` | lua_deepspeech.c:117-118 | a new stream object holds the handle the engine set up |
| `Binding.State.constructor` | lua_deepspeech.c:16-20 | the process starts with no model and an empty buffer |
| `Binding.State.Init` | lua_deepspeech.c:56-102 | a non-table config changes nothing. A refused config issues no engine handle. Otherwise any old model is destroyed first, whatever the config holds. A config error leaves no model. `DS_CreateModel` gets the validated paths and constants. Its refusal leaves no model, taking the handle the engine writes to be NULL. Its success leaves one never-issued model live, with the language model enabled when `grammar` is set. A refused language model keeps the model live. At most one model stays live |
| `Binding.State.CheckedAudio` | lua_deepspeech.c:107-108 | checks the samples as `CheckSamples` does and turns a NULL result (wrong argument type, NULL light userdata, or an empty table before any growth) into the "Expected a table or lightuserdata" error |
| `Binding.State.Decode` | lua_deepspeech.c:104-113 | with no model, fails with "not initialized" and leaves the buffer and engine untouched. Otherwise the buffer capacity becomes `NewCapacity` for a table and stays as it was for other arguments, and it either raises the sample error or sends exactly the checked audio to `DS_SpeechToText` at 16000 Hz and returns its text |
| `Binding.State.NewStream` | lua_deepspeech.c:115-122 | with no model, fails with "not initialized" and makes no engine call. A refused setup fails with "Could not create stream". Otherwise it returns a new object owning a never-issued handle bound to the current model |
| `Binding.State.StreamPush` | lua_deepspeech.c:124-131 | does not check for a model. The buffer capacity becomes `NewCapacity` for a table and stays as it was for other arguments. It raises the sample error, or feeds exactly the checked audio to the stream's handle. The handle is unchanged |
| `Binding.State.StreamDecode` | lua_deepspeech.c:133-139 | one intermediate decode on the stream's handle; the handle and every live handle are unchanged |
| `Binding.State.StreamFinish` | lua_deepspeech.c:141-148 | finishes the old handle (released), returns the engine's transcript, and rebinds the stream to a never-issued handle bound to the current model. The new handle is NULL when there is no model or the engine refuses |
| `Binding.State.StreamClear` | lua_deepspeech.c:150-155 | discards the old handle (released) and rebinds the stream like `finish`, without a transcript |
| `Scenarios.InitTwice` | lua_deepspeech.c:59-94 | after two accepted `init` calls only the second model is live, and the first was destroyed before the second was created |
| `Scenarios.FinishPushFinish` | lua_deepspeech.c:124-148 | `finish`, `push`, `finish` on one object returns both transcripts and leaves it bound to a live handle of the current model |
| `Scenarios.Session` | lua_deepspeech.c:56-148 | `init`, `newStream`, a push of 1000 zeros, a decode and a `finish` all succeed. A push of [40000] is then refused as sample #1 with value 40000, and a push of an empty table succeeds because the grown buffer is kept |

## Findings

| source | as written | input that shows it | evidently intended | confidence | as-written member | corrected member |
|---|---|---|---|---|---|---|
| lua_deepspeech.c:33 | `realloc(state.buffer, state.bufferSize)` asks for `bufferSize` bytes, but `bufferSize` counts shorts and the loop at lines 36-46 writes up to `count` shorts | a two-sample table on a fresh buffer: capacity 2, 2 bytes, room for one short, and `buffer[1]` is written out of bounds; the same happens with no reallocation at all, e.g. `bufferSize` 2 left by an earlier call (2 bytes) and a two-sample table | request `bufferSize * sizeof(short)` bytes | high; not executed | `Samples.AsWrittenAllocationTooSmall`, `Samples.AsWrittenOverflowWithoutGrowth`, `Samples.AsWrittenTwoSamples` | `Samples.CorrectedAllocationCovers` (the `SampleBuffer` array holds `bufferSize` shorts) |

## Left out

- Lua stack and metatable plumbing is not modelled: `lua_getfield`, `lua_pushstring`, `luaL_checkudata`, the `lds_Stream` metatable, and registration at lines 157-186. This is runtime glue. Stream methods take a `Stream` object directly.
- The engine's behaviour is not modelled, only the calls made to it. Acceptance and returned text are parameters. `DS_FreeString` memory handling is left out.
- DeepSpeech.Engine.CreateModel: when the engine refuses, the handle it writes into `state.modelState` is taken to be NULL. Line 94 does not reset it on failure, so "a refused create leaves no model" depends on the engine.
- DeepSpeech.Engine.SetupStream: when the engine refuses, or gets a NULL model, the handle is taken to be NULL. What DeepSpeech really does with a NULL model (most likely a crash) is not visible from this code.
- Using a stream handle after its model was destroyed, or a NULL handle, is undefined in the engine. The model only records such calls. It neither detects nor rejects them, and neither does the code.
- Memory safety of `realloc` is not modelled, nor its failure. The model tracks capacity in elements, as the corrected allocation would.
- `lua_tointeger` coercion of non-numeric table entries is left out. A table is a sequence of integers. `luaL_checkinteger` coercion is also left out: the next argument is either an integer or a failure.
- The 64-bit wrap-around of the doubling loop for counts above 2^63 is not modelled, since no table can be that large.
- The formatted text of the range error (`%d` with `size_t` and `lua_Integer`) is not modelled. The error carries the 1-based index and the value.
- The LM weights `1.f, 1.f` at line 97 are floats and are not modelled.
- Concurrency on the shared buffer is not modelled. The code assumes single-threaded callers.
