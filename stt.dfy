/**
 * `STTManager` of the speech-to-text module, in both editions: its state
 * (`running`, `utterance_callback`, `current_recording` and the VAD
 * constants), `start`, `stop`, `set_utterance_callback`, and the listen
 * loop. The listen loop resolves the key, builds the client, opens the
 * stream, and drains the pending chunks in arrival order through the
 * state machine of `Vad`. Every finished recording goes to `_transcribe`.
 *
 * The audio driver's callback thread appends chunks to the pending list
 * while the loop drains it. Here that list is given as `batches`: each one
 * is what the loop finds pending when it looks, until `stop` (or the
 * shutdown event) ends the loop.
 */
module Stt {
  import opened Wrappers
  import opened Vad
  import opened ApiKey
  import opened Wm8960Device
  import opened Transcription

  /** `threshold` and `silence_limit`: 0.02 and 2.0 s, or 0.015 and 1.8 s on the more sensitive HAT. */
  function EditionConfig(edition: Edition): (cfg: Config)
    ensures cfg.threshold > 0.0 && cfg.silenceLimit > 0.0
  {
    match edition
    case GenericMic => Config(0.02, 2.0)
    case Wm8960Hat => Config(0.015, 1.8)
  }

  /** How a listen loop ends. */
  datatype ListenExit =
    | NoApiKey       // no OpenAI library or no key: returns before opening a stream
    | ClientRaised   // HAT edition: the client constructor raised and ended the thread
    | StreamFailed   // the input stream could not be opened (error logged)
    | Stopped        // `running` was cleared or the shutdown event set

  /** The pending chunks of all batches, in arrival order. */
  function Concat(batches: seq<seq<Chunk>>): (cs: seq<Chunk>)
    ensures batches == [] ==> cs == []
  {
    if batches == [] then [] else Concat(batches[..|batches| - 1]) + batches[|batches| - 1]
  }

  class STTManager {
    const edition: Edition
    const cfg: Config
    const ampGain: real
    var running: bool
    var callbackSet: bool
    var currentRecording: seq<Chunk>

    /** `__init__`: not running, no callback, an empty recording and the edition's constants. */
    constructor(edition: Edition, ampGain: real)
      ensures this.edition == edition && cfg == EditionConfig(edition) && this.ampGain == ampGain
      ensures !running && !callbackSet && currentRecording == []
    {
      this.edition := edition;
      cfg := EditionConfig(edition);
      this.ampGain := ampGain;
      running := false;
      callbackSet := false;
      currentRecording := [];
    }

    /** `start`: sets `running`; the listen loop then runs on its own thread. */
    method Start()
      modifies this`running
      ensures running
    {
      running := true;
    }

    /** `stop` only clears `running`, so stopping twice is the same as stopping once. */
    method Stop()
      modifies this`running
      ensures !running
    {
      running := false;
    }

    /** `set_utterance_callback(cb)`; `present` says whether `cb` is a callable rather than `None`. */
    method SetUtteranceCallback(present: bool)
      modifies this`callbackSet
      ensures callbackSet == present
    {
      callbackSet := present;
    }

    /**
     * `_listen_loop`. The HAT edition first looks up its device. Both then
     * resolve the key and give up without a stream when there is no OpenAI
     * library or no key. A client constructor that raises ends the HAT
     * edition's thread. The generic edition logs it and goes on without a
     * client, so every transcription fails. If the stream opens, the loop
     * drains each non-empty batch while `running` is set.
     */
    method ListenLoop(conf: TtsConf, env: Option<string>, openAiImported: bool, clientRaises: bool,
                      devices: DeviceQuery, streamOpens: bool, batches: seq<seq<Chunk>>,
                      service: seq<Chunk> -> Response)
      returns (exit: ListenExit, device: Option<nat>, delivered: seq<Delivery>)
      modifies this`currentRecording
      ensures edition == GenericMic ==> device == None
      ensures edition == Wm8960Hat ==> Chosen(devices, device)
      ensures exit == NoApiKey <==> !openAiImported || !Truthy(ResolveApiKey(conf, env))
      ensures exit == ClientRaised <==>
        openAiImported && Truthy(ResolveApiKey(conf, env)) && clientRaises && edition == Wm8960Hat
      ensures exit == StreamFailed <==>
        openAiImported && Truthy(ResolveApiKey(conf, env)) && !(clientRaises && edition == Wm8960Hat) && !streamOpens
      ensures exit != Stopped ==> delivered == [] && currentRecording == old(currentRecording)
      ensures exit == Stopped ==>
        var r := Run(cfg, LoopStart(old(currentRecording)), if running then Concat(batches) else []);
        && currentRecording == r.0.buffer
        && delivered == TranscribeAll(edition, r.1, !clientRaises, service, callbackSet)
    {
      device := None;
      delivered := [];
      if edition == Wm8960Hat {
        device := FindWm8960(devices);
      }
      var key := ResolveApiKey(conf, env);
      if !(openAiImported && Truthy(key)) {
        return NoApiKey, device, delivered;
      }
      var clientReady := true;
      if clientRaises {
        if edition == Wm8960Hat {
          return ClientRaised, device, delivered;
        }
        clientReady := false;
      }
      if !streamOpens {
        return StreamFailed, device, delivered;
      }
      var recording: bool, silenceStart: Option<real> := false, None;
      var i := 0;
      while running && i < |batches|
        invariant i <= |batches|
        invariant !running ==> i == 0
        invariant var r := Run(cfg, LoopStart(old(currentRecording)), Concat(batches[..i]));
          && VadState(recording, silenceStart, currentRecording) == r.0
          && delivered == TranscribeAll(edition, r.1, clientReady, service, callbackSet)
      {
        ghost var seen := Concat(batches[..i]);
        ghost var before := Run(cfg, LoopStart(old(currentRecording)), seen);
        if batches[i] != [] {
          var more;
          recording, silenceStart, more := Drain(batches[i], recording, silenceStart, clientReady, service);
          delivered := delivered + more;
        } else {
          assert Run(cfg, before.0, batches[i]) == (before.0, []);
        }
        assert batches[..i + 1][..i] == batches[..i];
        assert Concat(batches[..i + 1]) == seen + batches[i];
        RunAppend(cfg, LoopStart(old(currentRecording)), seen, batches[i]);
        TranscribeAllAppend(edition, before.1, Run(cfg, before.0, batches[i]).1, clientReady, service, callbackSet);
        i := i + 1;
      }
      assert running ==> batches[..i] == batches;
      return Stopped, device, delivered;
    }

    /**
     * The inner `while audio_buffer` loop: pops the pending chunks from the
     * front, one at a time, until none is left. The loop's `is_recording`
     * and `silence_start` come in and go out. The new recording and the
     * recordings handed to `_transcribe` are those of `Vad.Run` over the
     * chunks in arrival order.
     */
    method Drain(pending: seq<Chunk>, recording: bool, silenceStart: Option<real>,
                 clientReady: bool, service: seq<Chunk> -> Response)
      returns (recordingAfter: bool, silenceStartAfter: Option<real>, delivered: seq<Delivery>)
      modifies this`currentRecording
      ensures var r := Run(cfg, VadState(recording, silenceStart, old(currentRecording)), pending);
        && VadState(recordingAfter, silenceStartAfter, currentRecording) == r.0
        && delivered == TranscribeAll(edition, r.1, clientReady, service, callbackSet)
    {
      var total := Run(cfg, VadState(recording, silenceStart, currentRecording), pending);
      var queue := pending;
      recordingAfter, silenceStartAfter, delivered := recording, silenceStart, [];
      while queue != []
        invariant var r := Run(cfg, VadState(recordingAfter, silenceStartAfter, currentRecording), queue);
          && r.0 == total.0
          && delivered + TranscribeAll(edition, r.1, clientReady, service, callbackSet)
             == TranscribeAll(edition, total.1, clientReady, service, callbackSet)
        decreases |queue|
      {
        ghost var before := VadState(recordingAfter, silenceStartAfter, currentRecording);
        ghost var deliveredBefore := delivered;
        var chunk := queue[0];
        assert queue == [chunk] + queue[1..];
        ghost var tailBefore := TranscribeAll(edition, Run(cfg, before, queue).1, clientReady, service, callbackSet);
        assert deliveredBefore + tailBefore == TranscribeAll(edition, total.1, clientReady, service, callbackSet);
        queue := queue[1..];
        ghost var handed: seq<seq<Chunk>> := [];
        if chunk.volume > cfg.threshold {
          if !recordingAfter {
            recordingAfter := true;
            currentRecording := [chunk];
          } else {
            currentRecording := currentRecording + [chunk];
          }
          silenceStartAfter := None;
        } else if recordingAfter {
          currentRecording := currentRecording + [chunk];
          if silenceStartAfter.None? {
            silenceStartAfter := Some(chunk.clock);
          } else if chunk.clock - silenceStartAfter.value > cfg.silenceLimit {
            recordingAfter := false;
            var d := Transcribe(edition, currentRecording, clientReady, service(currentRecording), callbackSet);
            delivered := delivered + [d];
            handed := [currentRecording];
            assert TranscribeAll(edition, handed, clientReady, service, callbackSet) == [d];
            currentRecording := [];
          }
        }
        DrainStep(edition, cfg, before, chunk, queue, VadState(recordingAfter, silenceStartAfter, currentRecording),
                  handed, clientReady, service, callbackSet);
        ghost var now := TranscribeAll(edition, handed, clientReady, service, callbackSet);
        ghost var tailAfter := TranscribeAll(edition, Run(cfg, VadState(recordingAfter, silenceStartAfter, currentRecording), queue).1,
                                             clientReady, service, callbackSet);
        assert tailBefore == now + tailAfter;
        assert delivered == deliveredBefore + now;
        ConcatAssoc(deliveredBefore, now, tailAfter);
      }
    }
  }

  /**
   * Every recording a listen loop hands to `_transcribe` is a finished
   * utterance, so it is never empty and `_transcribe` never takes its
   * early return.
   */
  lemma NeverTranscribesEmpty(edition: Edition, cfg: Config, b: seq<Chunk>, cs: seq<Chunk>,
                              clientReady: bool, service: seq<Chunk> -> Response, callbackSet: bool)
    ensures var ds := TranscribeAll(edition, Run(cfg, LoopStart(b), cs).1, clientReady, service, callbackSet);
      forall k :: 0 <= k < |ds| ==> ds[k] != Skipped
  {
    ListenSegments(cfg, b, cs);
  }

  lemma ConcatAssoc<T>(a: seq<T>, b: seq<T>, c: seq<T>)
    ensures (a + b) + c == a + (b + c)
  {
  }

  /** One pass of the drain loop is one `Vad.Step`, and its transcriptions come first. */
  lemma DrainStep(edition: Edition, cfg: Config, before: VadState, chunk: Chunk, rest: seq<Chunk>,
                  after: VadState, handed: seq<seq<Chunk>>,
                  clientReady: bool, service: seq<Chunk> -> Response, callbackSet: bool)
    requires var step := Step(cfg, before, chunk);
      step.0 == after && handed == (if step.1.Some? then [step.1.value] else [])
    ensures Run(cfg, before, [chunk] + rest).0 == Run(cfg, after, rest).0
    ensures TranscribeAll(edition, Run(cfg, before, [chunk] + rest).1, clientReady, service, callbackSet)
         == TranscribeAll(edition, handed, clientReady, service, callbackSet)
            + TranscribeAll(edition, Run(cfg, after, rest).1, clientReady, service, callbackSet)
  {
    var cs := [chunk] + rest;
    assert cs[0] == chunk && cs[1..] == rest;
    assert Run(cfg, before, cs) == (Run(cfg, after, rest).0, handed + Run(cfg, after, rest).1);
    TranscribeAllAppend(edition, handed, Run(cfg, after, rest).1, clientReady, service, callbackSet);
  }
}
