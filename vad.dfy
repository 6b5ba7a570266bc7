/**
 * The level-triggered voice-activity state machine of `STTManager._listen_loop`
 * (both editions of the speech-to-text module).
 *
 * Each pending chunk is compared with the threshold. A loud chunk starts an
 * utterance (or continues one) and clears the silence timer. While recording,
 * every chunk is appended to `current_recording`. The first quiet chunk after
 * a loud one stamps the timer. A later quiet chunk whose clock reading is more
 * than `silence_limit` past the stamp ends the utterance: the buffer is handed
 * to transcription and emptied. A quiet chunk while idle is dropped.
 *
 * The volume of a chunk and the `time.time()` reading taken while it is
 * processed are inputs of the model (fields of `Chunk`).
 */
module Vad {
  import opened Wrappers

  /** One block from the driver: its samples, its computed volume, and the clock reading when it is processed. */
  datatype Chunk = Chunk(samples: seq<real>, volume: real, clock: real)

  /** `threshold` and `silence_limit` of one STTManager. */
  datatype Config = Config(threshold: real, silenceLimit: real)

  /** The loop's `is_recording` and `silence_start` locals and the manager's `current_recording`. */
  datatype VadState = VadState(recording: bool, silenceStart: Option<real>, buffer: seq<Chunk>)

  predicate Loud(cfg: Config, c: Chunk) {
    c.volume > cfg.threshold
  }

  /** The state of a fresh listen loop: idle, no timer, and the buffer the manager holds. */
  function LoopStart(recording: seq<Chunk>): VadState {
    VadState(false, None, recording)
  }

  /**
   * One pass of the inner drain loop's body for chunk `c`: the new state and,
   * when the utterance ends, the buffer handed to `_transcribe`.
   */
  function Step(cfg: Config, st: VadState, c: Chunk): (r: (VadState, Option<seq<Chunk>>))
    ensures Loud(cfg, c) ==> r.0.recording && r.0.silenceStart == None && r.1 == None
    ensures Loud(cfg, c) && !st.recording ==> r.0.buffer == [c]
    ensures !st.recording && !Loud(cfg, c) ==> r == (st, None)
    ensures st.recording && r.1 == None ==> r.0.recording && r.0.buffer == st.buffer + [c]
    ensures r.1.Some? ==> !r.0.recording && r.0.buffer == [] && r.1.value == st.buffer + [c]
  {
    if Loud(cfg, c) then
      (VadState(true, None, if st.recording then st.buffer + [c] else [c]), None)
    else if !st.recording then
      (st, None)
    else if st.silenceStart.None? then
      (VadState(true, Some(c.clock), st.buffer + [c]), None)
    else if c.clock - st.silenceStart.value > cfg.silenceLimit then
      (VadState(false, st.silenceStart, []), Some(st.buffer + [c]))
    else
      (st.(buffer := st.buffer + [c]), None)
  }

  /** The drain loop over `cs`, front to back: the final state and every buffer handed on, in order. */
  function Run(cfg: Config, st: VadState, cs: seq<Chunk>): (r: (VadState, seq<seq<Chunk>>))
    decreases |cs|
    ensures |r.1| <= |cs|
  {
    if cs == [] then (st, [])
    else
      var step := Step(cfg, st, cs[0]);
      var rest := Run(cfg, step.0, cs[1..]);
      (rest.0, (if step.1.Some? then [step.1.value] else []) + rest.1)
  }

  /** Draining `a` and then `b` is draining `a + b`: chunks are consumed in arrival order. */
  lemma {:induction false} RunAppend(cfg: Config, st: VadState, a: seq<Chunk>, b: seq<Chunk>)
    decreases |a|
    ensures var first := Run(cfg, st, a);
            var second := Run(cfg, first.0, b);
            Run(cfg, st, a + b) == (second.0, first.1 + second.1)
  {
    if a == [] {
      assert a + b == b;
      assert Run(cfg, st, a) == (st, []);
      assert [] + Run(cfg, st, b).1 == Run(cfg, st, b).1;
    } else {
      assert (a + b)[0] == a[0];
      assert (a + b)[1..] == a[1..] + b;
      var step := Step(cfg, st, a[0]);
      var e := if step.1.Some? then [step.1.value] else [];
      RunAppend(cfg, step.0, a[1..], b);
      var first := Run(cfg, step.0, a[1..]);
      var second := Run(cfg, first.0, b);
      assert Run(cfg, st, a) == (first.0, e + first.1);
      assert Run(cfg, st, a + b) == (second.0, e + (first.1 + second.1));
      assert e + (first.1 + second.1) == (e + first.1) + second.1;
    }
  }

  /** While idle, a stream of quiet chunks changes nothing and hands nothing on. */
  lemma {:induction false} RunQuietWhileIdle(cfg: Config, st: VadState, cs: seq<Chunk>)
    requires !st.recording
    requires forall k :: 0 <= k < |cs| ==> !Loud(cfg, cs[k])
    ensures Run(cfg, st, cs) == (st, [])
  {
    if cs != [] {
      assert !Loud(cfg, cs[0]);
      assert Step(cfg, st, cs[0]) == (st, None);
      RunQuietWhileIdle(cfg, st, cs[1..]);
      assert Run(cfg, st, cs[1..]) == (st, []);
      assert Run(cfg, st, cs).1 == [] + [];
    }
  }

  // ---------------------------------------------------------------------
  // A declarative description of what the drain loop produces.
  // ---------------------------------------------------------------------

  /** The number of quiet chunks at the end of `b`. */
  function QuietRun(cfg: Config, b: seq<Chunk>): (n: nat)
    ensures n <= |b|
    ensures forall k :: |b| - n <= k < |b| ==> !Loud(cfg, b[k])
    ensures n < |b| ==> Loud(cfg, b[|b| - 1 - n])
  {
    if b == [] || Loud(cfg, b[|b| - 1]) then 0 else QuietRun(cfg, b[..|b| - 1]) + 1
  }

  /**
   * The recording `b` is complete: it ends in at least two quiet chunks, and
   * the last one's clock is more than the silence limit past the first one of
   * that quiet run (the chunk that stamped the timer).
   */
  predicate Closes(cfg: Config, b: seq<Chunk>) {
    var n := QuietRun(cfg, b);
    n >= 2 && b[|b| - 1].clock - b[|b| - n].clock > cfg.silenceLimit
  }

  /** A recording in progress: it starts with a loud chunk and none of its prefixes closes. */
  predicate OpenUtterance(cfg: Config, b: seq<Chunk>) {
    |b| > 0 && Loud(cfg, b[0]) && forall k :: 1 <= k <= |b| ==> !Closes(cfg, b[..k])
  }

  /** A finished utterance: it starts with a loud chunk and closes at its last chunk and at no earlier one. */
  predicate IsUtterance(cfg: Config, u: seq<Chunk>) {
    |u| > 0 && Loud(cfg, u[0]) && Closes(cfg, u) && forall k :: 1 <= k < |u| ==> !Closes(cfg, u[..k])
  }

  /** The number of quiet chunks at the front of `cs`. */
  function LeadingQuiet(cfg: Config, cs: seq<Chunk>): (n: nat)
    ensures n <= |cs|
    ensures forall k :: 0 <= k < n ==> !Loud(cfg, cs[k])
    ensures n < |cs| ==> Loud(cfg, cs[n])
  {
    if cs == [] || Loud(cfg, cs[0]) then 0 else LeadingQuiet(cfg, cs[1..]) + 1
  }

  /**
   * `cs` splits into: a run of quiet chunks, the utterance `us[0]`, a run of
   * quiet chunks, `us[1]`, ..., and finally either nothing but quiet chunks
   * (`open == []`) or the recording still in progress, `open`.
   */
  predicate Segmented(cfg: Config, cs: seq<Chunk>, us: seq<seq<Chunk>>, open: seq<Chunk>)
    decreases |us|, 1
  {
    SegmentedFrom(cfg, cs[LeadingQuiet(cfg, cs)..], us, open)
  }

  /** `Segmented` for input that starts right at the next utterance (or is empty). */
  predicate SegmentedFrom(cfg: Config, t: seq<Chunk>, us: seq<seq<Chunk>>, open: seq<Chunk>)
    decreases |us|, 0
  {
    if us == [] then
      open == t && (open == [] || OpenUtterance(cfg, open))
    else
      && |us[0]| <= |t|
      && t[..|us[0]|] == us[0]
      && IsUtterance(cfg, us[0])
      && Segmented(cfg, t[|us[0]|..], us[1..], open)
  }

  /** What holds between chunks: the buffer is empty when idle, open when recording, and the timer marks its quiet tail. */
  predicate Inv(cfg: Config, st: VadState) {
    if !st.recording then st.buffer == []
    else
      && OpenUtterance(cfg, st.buffer)
      && var n := QuietRun(cfg, st.buffer);
         st.silenceStart == if n == 0 then None else Some(st.buffer[|st.buffer| - n].clock)
  }

  lemma QuietRunSnoc(cfg: Config, b: seq<Chunk>, c: Chunk)
    ensures QuietRun(cfg, b + [c]) == if Loud(cfg, c) then 0 else QuietRun(cfg, b) + 1
  {
    assert (b + [c])[..|b|] == b;
  }

  /** Appending `c` closes the recording exactly when `c` is quiet, the timer runs, and `c` is past the limit. */
  lemma ClosesSnoc(cfg: Config, b: seq<Chunk>, c: Chunk)
    ensures var n := QuietRun(cfg, b);
      Closes(cfg, b + [c]) <==> !Loud(cfg, c) && n >= 1 && c.clock - b[|b| - n].clock > cfg.silenceLimit
  {
    QuietRunSnoc(cfg, b, c);
    var n := QuietRun(cfg, b);
    if !Loud(cfg, c) && n >= 1 {
      assert (b + [c])[|b| + 1 - (n + 1)] == b[|b| - n];
    }
  }

  lemma PrefixesOfSnoc(cfg: Config, b: seq<Chunk>, c: Chunk)
    requires OpenUtterance(cfg, b)
    ensures Loud(cfg, (b + [c])[0])
    ensures forall k :: 1 <= k <= |b| ==> !Closes(cfg, (b + [c])[..k])
  {
    forall k | 1 <= k <= |b| ensures !Closes(cfg, (b + [c])[..k]) {
      assert (b + [c])[..k] == b[..k];
    }
  }

  lemma ExtendOpen(cfg: Config, b: seq<Chunk>, c: Chunk)
    requires OpenUtterance(cfg, b) && !Closes(cfg, b + [c])
    ensures OpenUtterance(cfg, b + [c])
  {
    PrefixesOfSnoc(cfg, b, c);
    assert (b + [c])[..|b| + 1] == b + [c];
  }

  lemma ExtendClosed(cfg: Config, b: seq<Chunk>, c: Chunk)
    requires OpenUtterance(cfg, b) && Closes(cfg, b + [c])
    ensures IsUtterance(cfg, b + [c])
  {
    PrefixesOfSnoc(cfg, b, c);
  }

  /**
   * While recording, a chunk ends the utterance exactly when the recording
   * with that chunk appended closes; it then hands on a finished utterance.
   * Otherwise the invariant is kept.
   */
  lemma StepKeepsInv(cfg: Config, st: VadState, c: Chunk)
    requires Inv(cfg, st)
    ensures Inv(cfg, Step(cfg, st, c).0)
    ensures st.recording ==> (Step(cfg, st, c).1.Some? <==> Closes(cfg, st.buffer + [c]))
    ensures Step(cfg, st, c).1.Some? ==> IsUtterance(cfg, Step(cfg, st, c).1.value)
  {
    if !st.recording {
      IdleStep(cfg, st, c);
    } else if Closes(cfg, st.buffer + [c]) {
      ClosingStep(cfg, st, c);
    } else {
      ContinuingStep(cfg, st, c);
    }
  }

  lemma IdleStep(cfg: Config, st: VadState, c: Chunk)
    requires Inv(cfg, st) && !st.recording
    ensures Inv(cfg, Step(cfg, st, c).0) && Step(cfg, st, c).1 == None
  {
    if Loud(cfg, c) {
      assert QuietRun(cfg, [c]) == 0;
      assert forall k :: 1 <= k <= 1 ==> [c][..k] == [c];
    }
  }

  lemma ClosingStep(cfg: Config, st: VadState, c: Chunk)
    requires Inv(cfg, st) && st.recording && Closes(cfg, st.buffer + [c])
    ensures Step(cfg, st, c) == (VadState(false, st.silenceStart, []), Some(st.buffer + [c]))
    ensures IsUtterance(cfg, st.buffer + [c])
  {
    ClosesSnoc(cfg, st.buffer, c);
    ExtendClosed(cfg, st.buffer, c);
  }

  lemma ContinuingStep(cfg: Config, st: VadState, c: Chunk)
    requires Inv(cfg, st) && st.recording && !Closes(cfg, st.buffer + [c])
    ensures Inv(cfg, Step(cfg, st, c).0) && Step(cfg, st, c).1 == None
  {
    ClosesSnoc(cfg, st.buffer, c);
    ExtendOpen(cfg, st.buffer, c);
    RecordingKeepsTimer(cfg, st, c);
  }

  /** While recording, `silence_start` keeps marking the first chunk of the quiet tail. */
  lemma RecordingKeepsTimer(cfg: Config, st: VadState, c: Chunk)
    requires Inv(cfg, st) && st.recording && Step(cfg, st, c).1 == None
    ensures var b := st.buffer + [c];
      var n := QuietRun(cfg, b);
      Step(cfg, st, c).0.silenceStart == if n == 0 then None else Some(b[|b| - n].clock)
  {
    var b := st.buffer;
    var n := QuietRun(cfg, b);
    QuietRunSnoc(cfg, b, c);
    if !Loud(cfg, c) && n >= 1 {
      assert (b + [c])[|b| + 1 - (n + 1)] == b[|b| - n];
    }
  }

  lemma SegmentedQuietCons(cfg: Config, c: Chunk, cs: seq<Chunk>, us: seq<seq<Chunk>>, open: seq<Chunk>)
    requires !Loud(cfg, c)
    requires Segmented(cfg, cs, us, open)
    ensures Segmented(cfg, [c] + cs, us, open)
  {
    var cs' := [c] + cs;
    assert cs'[1..] == cs;
    var g := LeadingQuiet(cfg, cs);
    assert LeadingQuiet(cfg, cs') == g + 1;
    assert cs'[g + 1..] == cs[g..];
  }

  lemma SegmentedUtteranceCons(cfg: Config, u: seq<Chunk>, cs: seq<Chunk>, us: seq<seq<Chunk>>, open: seq<Chunk>)
    requires IsUtterance(cfg, u)
    requires Segmented(cfg, cs, us, open)
    ensures Segmented(cfg, u + cs, [u] + us, open)
  {
    var cs' := u + cs;
    assert LeadingQuiet(cfg, cs') == 0;
    assert cs'[0..] == cs';
    assert cs'[..|u|] == u;
    assert cs'[|u|..] == cs;
    assert ([u] + us)[1..] == us;
  }

  /** The drain loop keeps the invariant, and everything it hands on is a finished utterance. */
  lemma {:induction false} RunKeepsInv(cfg: Config, st: VadState, cs: seq<Chunk>)
    decreases |cs|
    requires Inv(cfg, st)
    ensures Inv(cfg, Run(cfg, st, cs).0)
    ensures forall k :: 0 <= k < |Run(cfg, st, cs).1| ==> IsUtterance(cfg, Run(cfg, st, cs).1[k])
  {
    if cs != [] {
      var step := Step(cfg, st, cs[0]);
      StepKeepsInv(cfg, st, cs[0]);
      RunKeepsInv(cfg, step.0, cs[1..]);
      var rest := Run(cfg, step.0, cs[1..]);
      var e := if step.1.Some? then [step.1.value] else [];
      assert Run(cfg, st, cs) == (rest.0, e + rest.1);
      assert forall k :: 0 <= k < |e| ==> IsUtterance(cfg, e[k]);
    }
  }

  /**
   * The chunks seen (the recording in progress followed by `cs`) are exactly
   * quiet gaps, the utterances handed on in order, and the final recording.
   */
  lemma {:induction false} RunSegments(cfg: Config, st: VadState, cs: seq<Chunk>)
    decreases |cs|
    requires Inv(cfg, st)
    ensures Segmented(cfg, st.buffer + cs, Run(cfg, st, cs).1, Run(cfg, st, cs).0.buffer)
  {
    if cs == [] {
      var all := st.buffer + cs;
      assert all == st.buffer && Run(cfg, st, cs) == (st, []);
      assert all[LeadingQuiet(cfg, all)..] == st.buffer;
      assert SegmentedFrom(cfg, all[LeadingQuiet(cfg, all)..], [], st.buffer);
    } else {
      var step := Step(cfg, st, cs[0]);
      StepKeepsInv(cfg, st, cs[0]);
      RunSegments(cfg, step.0, cs[1..]);
      SegmentsAfterStep(cfg, st, cs);
    }
  }

  /** The inductive step of `RunSegments`: one chunk in front of a segmented rest. */
  lemma SegmentsAfterStep(cfg: Config, st: VadState, cs: seq<Chunk>)
    requires Inv(cfg, st) && cs != []
    requires var step := Step(cfg, st, cs[0]);
      Segmented(cfg, step.0.buffer + cs[1..], Run(cfg, step.0, cs[1..]).1, Run(cfg, step.0, cs[1..]).0.buffer)
    ensures Segmented(cfg, st.buffer + cs, Run(cfg, st, cs).1, Run(cfg, st, cs).0.buffer)
  {
    var step := Step(cfg, st, cs[0]);
    var rest := Run(cfg, step.0, cs[1..]);
    if step.1.Some? {
      StepKeepsInv(cfg, st, cs[0]);
      SegmentsAfterEnd(cfg, st, cs, step.1.value, rest);
    } else {
      SegmentsAfterKeep(cfg, st, cs, rest);
    }
  }

  /** The inductive step when the chunk hands nothing on. */
  lemma SegmentsAfterKeep(cfg: Config, st: VadState, cs: seq<Chunk>, rest: (VadState, seq<seq<Chunk>>))
    requires Inv(cfg, st) && cs != [] && Step(cfg, st, cs[0]).1.None?
    requires rest == Run(cfg, Step(cfg, st, cs[0]).0, cs[1..])
    requires Segmented(cfg, Step(cfg, st, cs[0]).0.buffer + cs[1..], rest.1, rest.0.buffer)
    ensures Segmented(cfg, st.buffer + cs, Run(cfg, st, cs).1, Run(cfg, st, cs).0.buffer)
  {
    var step := Step(cfg, st, cs[0]);
    assert Run(cfg, st, cs) == (rest.0, [] + rest.1);
    assert [] + rest.1 == rest.1;
    if !st.recording && !Loud(cfg, cs[0]) {
      assert st.buffer + cs == [cs[0]] + cs[1..];
      assert step.0.buffer + cs[1..] == cs[1..];
      SegmentedQuietCons(cfg, cs[0], cs[1..], rest.1, rest.0.buffer);
    } else {
      SameChunksAfterStep(cfg, st, cs);
    }
  }

  /** A chunk that is recorded and not handed on moves from the input to the buffer. */
  lemma SameChunksAfterStep(cfg: Config, st: VadState, cs: seq<Chunk>)
    requires cs != [] && Step(cfg, st, cs[0]).1 == None
    requires st.recording || Loud(cfg, cs[0])
    requires !st.recording ==> st.buffer == []
    ensures st.buffer + cs == Step(cfg, st, cs[0]).0.buffer + cs[1..]
  {
    var b := Step(cfg, st, cs[0]).0.buffer;
    assert b == st.buffer + [cs[0]];
    assert cs == [cs[0]] + cs[1..];
  }

  lemma SegmentsAfterEnd(cfg: Config, st: VadState, cs: seq<Chunk>, u: seq<Chunk>, rest: (VadState, seq<seq<Chunk>>))
    requires cs != [] && Step(cfg, st, cs[0]) == (Step(cfg, st, cs[0]).0, Some(u))
    requires rest == Run(cfg, Step(cfg, st, cs[0]).0, cs[1..])
    requires IsUtterance(cfg, u)
    requires Segmented(cfg, Step(cfg, st, cs[0]).0.buffer + cs[1..], rest.1, rest.0.buffer)
    ensures Segmented(cfg, st.buffer + cs, Run(cfg, st, cs).1, Run(cfg, st, cs).0.buffer)
  {
    assert Run(cfg, st, cs) == (rest.0, [u] + rest.1);
    assert st.buffer + cs == u + cs[1..];
    assert Step(cfg, st, cs[0]).0.buffer + cs[1..] == cs[1..];
    SegmentedUtteranceCons(cfg, u, cs[1..], rest.1, rest.0.buffer);
  }

  /** Two finished utterances that both start the same input are the same: an utterance ends at its first closing chunk. */
  lemma UtterancePrefixUnique(cfg: Config, t: seq<Chunk>, u1: seq<Chunk>, u2: seq<Chunk>)
    requires |u1| <= |t| && t[..|u1|] == u1 && IsUtterance(cfg, u1)
    requires |u2| <= |t| && t[..|u2|] == u2 && IsUtterance(cfg, u2)
    ensures u1 == u2
  {
    assert |u1| <= |u2| ==> u2[..|u1|] == u1;
    assert |u2| <= |u1| ==> u1[..|u2|] == u2;
  }

  /** No prefix of a recording still open is closed, so none is a finished utterance. */
  lemma OpenPrefixNotClosed(cfg: Config, t: seq<Chunk>, u: seq<Chunk>)
    requires OpenUtterance(cfg, t)
    requires 1 <= |u| <= |t| && t[..|u|] == u
    ensures !Closes(cfg, u)
  {
  }

  /**
   * The segmentation is unique: the declarative description determines the
   * utterances handed on and the final recording, so `Run` is the only
   * drain loop that satisfies it.
   */
  lemma {:induction false} SegmentationUnique(cfg: Config, cs: seq<Chunk>,
                                              us1: seq<seq<Chunk>>, open1: seq<Chunk>,
                                              us2: seq<seq<Chunk>>, open2: seq<Chunk>)
    decreases |us1|
    requires Segmented(cfg, cs, us1, open1) && Segmented(cfg, cs, us2, open2)
    ensures us1 == us2 && open1 == open2
  {
    var t := cs[LeadingQuiet(cfg, cs)..];
    if us1 == [] && us2 != [] {
      OpenPrefixNotClosed(cfg, t, us2[0]);
      assert false;
    } else if us1 != [] && us2 == [] {
      OpenPrefixNotClosed(cfg, t, us1[0]);
      assert false;
    } else if us1 != [] {
      UtterancePrefixUnique(cfg, t, us1[0], us2[0]);
      SegmentationUnique(cfg, t[|us1[0]|..], us1[1..], open1, us2[1..], open2);
      assert us1 == [us1[0]] + us1[1..] && us2 == [us2[0]] + us2[1..];
    }
  }

  /**
   * A fresh loop starts idle, whatever `current_recording` still holds from
   * an earlier run: that buffer is never appended to or handed on, and the
   * first loud chunk replaces it.
   */
  lemma {:induction false} IdleBufferIgnored(cfg: Config, b: seq<Chunk>, cs: seq<Chunk>)
    decreases |cs|
    ensures Run(cfg, LoopStart(b), cs).1 == Run(cfg, LoopStart([]), cs).1
    ensures || Run(cfg, LoopStart(b), cs).0 == Run(cfg, LoopStart([]), cs).0
            || (Run(cfg, LoopStart(b), cs).0 == LoopStart(b) && Run(cfg, LoopStart([]), cs).0 == LoopStart([]))
  {
    if cs != [] {
      var none: seq<seq<Chunk>> := [];
      if Loud(cfg, cs[0]) {
        assert Step(cfg, LoopStart(b), cs[0]) == Step(cfg, LoopStart([]), cs[0]);
      } else {
        IdleBufferIgnored(cfg, b, cs[1..]);
        assert Step(cfg, LoopStart(b), cs[0]) == (LoopStart(b), None);
        assert Step(cfg, LoopStart([]), cs[0]) == (LoopStart([]), None);
        assert none + Run(cfg, LoopStart(b), cs[1..]).1 == Run(cfg, LoopStart(b), cs[1..]).1;
        assert none + Run(cfg, LoopStart([]), cs[1..]).1 == Run(cfg, LoopStart([]), cs[1..]).1;
      }
    }
  }

  /**
   * What one listen loop hands to transcription, from a fresh start over the
   * chunks `cs`: finished utterances only, and together with the quiet gaps
   * and the recording left open they make up `cs` exactly.
   */
  lemma ListenSegments(cfg: Config, b: seq<Chunk>, cs: seq<Chunk>)
    ensures var r := Run(cfg, LoopStart(b), cs);
      && Segmented(cfg, cs, r.1, if r.0.recording then r.0.buffer else [])
      && forall k :: 0 <= k < |r.1| ==> IsUtterance(cfg, r.1[k])
  {
    IdleBufferIgnored(cfg, b, cs);
    RunKeepsInv(cfg, LoopStart([]), cs);
    RunSegments(cfg, LoopStart([]), cs);
    assert LoopStart([]).buffer + cs == cs;
  }

  /** Draining one more chunk after `cs` is one more step. */
  lemma RunSnoc(cfg: Config, st: VadState, cs: seq<Chunk>, c: Chunk)
    ensures var before := Run(cfg, st, cs);
      var step := Step(cfg, before.0, c);
      Run(cfg, st, cs + [c]) == (step.0, before.1 + if step.1.Some? then [step.1.value] else [])
  {
    RunAppend(cfg, st, cs, [c]);
    var step := Step(cfg, Run(cfg, st, cs).0, c);
    var e := if step.1.Some? then [step.1.value] else [];
    assert [c][1..] == [];
    assert Run(cfg, step.0, []) == (step.0, []);
    assert Run(cfg, Run(cfg, st, cs).0, [c]) == (step.0, e + []);
    assert e + [] == e;
  }

  /**
   * The hangover test is strict and the timer starts at the first quiet
   * chunk. With threshold 0.1, limit 0.2 and a chunk every 0.1 s, volumes
   * 0.3 0.05 0.05 0.05 leave the utterance open (0.4 - 0.2 is not more
   * than 0.2); one more quiet chunk at 0.5 ends it and hands on all five.
   */
  lemma HangoverIsStrict()
    ensures var cfg := Config(0.1, 0.2);
      var cs := [Chunk([], 0.3, 0.1), Chunk([], 0.05, 0.2), Chunk([], 0.05, 0.3), Chunk([], 0.05, 0.4)];
      var last := Chunk([], 0.05, 0.5);
      && Run(cfg, LoopStart([]), cs) == (VadState(true, Some(0.2), cs), [])
      && Run(cfg, LoopStart([]), cs + [last]) == (VadState(false, Some(0.2), []), [cs + [last]])
  {
    var cfg := Config(0.1, 0.2);
    var c0, c1, c2, c3 := Chunk([], 0.3, 0.1), Chunk([], 0.05, 0.2), Chunk([], 0.05, 0.3), Chunk([], 0.05, 0.4);
    var c4 := Chunk([], 0.05, 0.5);
    var s0 := LoopStart([]);
    var q1 := [c0];
    var q2 := q1 + [c1];
    var q3 := q2 + [c2];
    var q4 := q3 + [c3];
    assert Run(cfg, s0, q1) == (VadState(true, None, q1), []) by {
      assert Step(cfg, s0, c0) == (VadState(true, None, q1), None);
      assert q1[1..] == [];
      assert Run(cfg, VadState(true, None, q1), []) == (VadState(true, None, q1), []);
      var none: seq<seq<Chunk>> := [];
      assert none + none == none;
    }
    RunSnoc(cfg, s0, q1, c1);
    assert Run(cfg, s0, q2) == (VadState(true, Some(0.2), q2), []);
    RunSnoc(cfg, s0, q2, c2);
    assert Run(cfg, s0, q3) == (VadState(true, Some(0.2), q3), []);
    RunSnoc(cfg, s0, q3, c3);
    assert Run(cfg, s0, q4) == (VadState(true, Some(0.2), q4), []);
    RunSnoc(cfg, s0, q4, c4);
    assert Step(cfg, VadState(true, Some(0.2), q4), c4) == (VadState(false, Some(0.2), []), Some(q4 + [c4]));
    assert [] + [q4 + [c4]] == [q4 + [c4]];
    assert Run(cfg, s0, q4 + [c4]) == (VadState(false, Some(0.2), []), [q4 + [c4]]);
    assert q4 == [c0, c1, c2, c3];
  }
}
