/**
 * Callers of the binding that rely on its contracts alone: re-initialising,
 * recycling one stream object across utterances, and a whole session.
 */
module Scenarios {
  import opened Wrappers
  import opened Samples
  import opened Config
  import opened DeepSpeech
  import opened Binding

  /** Two accepted `init` calls: the first model is destroyed before the second is created, and only the second is live. */
  method InitTwice(b: State, c1: Argument, c2: Argument) returns (first: ModelHandle, second: ModelHandle)
    requires b.Valid()
    requires c1.ConfigTable? && Accepted(c1) && c2.ConfigTable? && Accepted(c2)
    modifies b, b.engine
    ensures b.Valid()
    ensures b.modelState == Some(second) && b.engine.liveModels == {second}
    ensures first != second && first !in b.engine.liveModels
    ensures exists i, j :: 0 <= i < j < |b.engine.calls|
                           && b.engine.calls[i] == Call.DestroyModel(first)
                           && b.engine.calls[j] == Call.CreateModel(c2.model.text, N_CEP, N_CONTEXT, c2.alphabet.text, BEAM_WIDTH)
  {
    var r1 := b.Init(c1, true, true);
    first := b.modelState.value;
    ghost var mid := b.engine.calls;
    var r2 := b.Init(c2, true, true);
    second := b.modelState.value;
    assert b.engine.calls[|mid|] == Call.DestroyModel(first);
    assert b.engine.calls[|mid| + 1] == Call.CreateModel(c2.model.text, N_CEP, N_CONTEXT, c2.alphabet.text, BEAM_WIDTH);
  }

  /** `finish`, `push`, `finish` on one stream object: both transcripts come back and the object stays bound to a live handle. */
  method FinishPushFinish(b: State, s: Stream, audio: SampleArg, t1: string, t2: string)
    returns (first: string, second: string)
    requires b.Valid() && b.modelState.Some?
    modifies b.samples, b.samples.buffer, b.engine, s
    ensures b.Valid()
    ensures first == t1 && second == t2
    ensures s.handle.Some? && s.handle.value in b.engine.liveStreams
    ensures b.engine.liveStreams[s.handle.value] == b.modelState.value
  {
    first := b.StreamFinish(s, t1, true);
    var pushed := b.StreamPush(s, audio);
    second := b.StreamFinish(s, t2, true);
  }

  /**
   * A whole session: `init`, `newStream`, 1000 zero samples pushed, an
   * intermediate decode, `finish`, then a push of [40000], which is refused
   * as sample #1. The grown buffer is kept, so an empty table is then
   * accepted.
   */
  method Session(partial: string, final: string)
    returns (initialised: Result<bool, Error>, pushed: Result<(), Error>, text: string, refused: Result<(), Error>,
             emptyPushed: Result<(), Error>)
    ensures initialised == Ok(true) && pushed == Ok(()) && text == final
    ensures refused == Err(BadSamples(OutOfRange(1, 40000)))
    ensures emptyPushed == Ok(())
  {
    var b := new State();
    initialised := b.Init(ConfigTable(Str("m.model"), Str("alphabet.txt"), Nil, Nil), true, true);
    var created := b.NewStream(true);
    var s := created.value;
    var zeros: seq<int> := seq(1000, _ => 0);
    assert forall j :: 0 <= j < |zeros| ==> InRange(zeros[j]);
    pushed := b.StreamPush(s, SampleArg.Table(zeros));
    var intermediate := b.StreamDecode(s, partial);
    text := b.StreamFinish(s, final, true);
    assert FirstOutOfRange([40000]) == 0;
    refused := b.StreamPush(s, SampleArg.Table([40000]));
    assert b.samples.bufferSize >= 1000;
    emptyPushed := b.StreamPush(s, SampleArg.Table([]));
  }
}
