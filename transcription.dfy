/**
 * `STTManager._transcribe` of both editions of the speech-to-text module:
 * what becomes of one finished recording. The generic-microphone edition
 * forwards a transcript to the utterance callback only when its stripped
 * length is more than one character; the WM8960-HAT edition forwards every
 * transcript. The service call itself is an input (`Response`).
 */
module Transcription {
  import opened Text
  import opened Vad

  /**
   * The two versions of `modules/module_stt.py`: the generic-microphone one
   * and the one bound to the WM8960 HAT.
   */
  datatype Edition = GenericMic | Wm8960Hat

  /** What the Whisper call gives back: a transcript, or an exception. */
  datatype Response = Transcript(text: string) | ServiceError

  /**
   * The fate of one recording: `Skipped` (empty, returned at once), `Failed`
   * (the call raised, or there is no client; logged and swallowed), or
   * `Heard` with the transcript and whether it reached the callback.
   */
  datatype Delivery = Skipped | Failed | Heard(text: string, forwarded: bool)

  /** The edition's test on a transcript before it may reach the callback. */
  predicate Passes(edition: Edition, text: string): (b: bool)
    ensures b && edition == GenericMic ==> TwoVisible(text)
  {
    match edition
    case GenericMic =>
      if text != [] && |Strip(text)| > 1 then StripTwoVisible(text); true else false
    case Wm8960Hat => true
  }

  /** At least two characters of `text` are not whitespace. */
  predicate TwoVisible(text: string) {
    exists i, j :: 0 <= i < j < |text| && !IsSpace(text[i]) && !IsSpace(text[j])
  }

  /** A strip that keeps two or more characters keeps two visible ones at its ends. */
  lemma StripTwoVisible(text: string)
    requires |Strip(text)| > 1
    ensures TwoVisible(text)
  {
    var r := Strip(text);
    var i := |text| - |StripStart(text)|;
    assert text[i] == r[0];
    assert text[i + |r| - 1] == r[|r| - 1];
  }

  /**
   * `_transcribe(audio, client)` with `response` as the service's answer and
   * `callbackSet` for whether `utterance_callback` is set. The callback gets
   * the transcript as the service returned it, not stripped.
   */
  function Transcribe(edition: Edition, audio: seq<Chunk>, clientReady: bool, response: Response, callbackSet: bool): (d: Delivery)
    ensures d == Skipped <==> audio == []
    ensures d == Failed <==> audio != [] && (!clientReady || response.ServiceError?)
    ensures d.Heard? ==> response.Transcript? && d.text == response.text
    ensures d.Heard? ==> (d.forwarded <==> callbackSet && Passes(edition, d.text))
  {
    if audio == [] then Skipped
    else if !clientReady then Failed
    else match response
      case ServiceError => Failed
      case Transcript(text) => Heard(text, callbackSet && Passes(edition, text))
  }

  /** Transcription of every recording handed on, in order. */
  function TranscribeAll(edition: Edition, us: seq<seq<Chunk>>, clientReady: bool,
                         service: seq<Chunk> -> Response, callbackSet: bool): (ds: seq<Delivery>)
    ensures |ds| == |us|
    ensures forall k :: 0 <= k < |us| ==> ds[k] == Transcribe(edition, us[k], clientReady, service(us[k]), callbackSet)
  {
    seq(|us|, k requires 0 <= k < |us| => Transcribe(edition, us[k], clientReady, service(us[k]), callbackSet))
  }

  lemma TranscribeAllAppend(edition: Edition, a: seq<seq<Chunk>>, b: seq<seq<Chunk>>, clientReady: bool,
                            service: seq<Chunk> -> Response, callbackSet: bool)
    ensures TranscribeAll(edition, a + b, clientReady, service, callbackSet)
         == TranscribeAll(edition, a, clientReady, service, callbackSet) + TranscribeAll(edition, b, clientReady, service, callbackSet)
  {
  }

  /**
   * The generic-microphone edition never forwards a blank transcript, nor a
   * single visible character padded with whitespace.
   */
  lemma {:induction false} GenericMicIgnoresOneCharacter(p: string, c: char, q: string)
    requires forall k :: 0 <= k < |p| ==> IsSpace(p[k])
    requires forall k :: 0 <= k < |q| ==> IsSpace(q[k])
    ensures !Passes(GenericMic, p + q)
    ensures !IsSpace(c) ==> !Passes(GenericMic, p + [c] + q)
  {
    var blank := p + q;
    assert forall k :: 0 <= k < |blank| ==> IsSpace(blank[k]) by {
      forall k | 0 <= k < |blank| ensures IsSpace(blank[k]) {
        if k < |p| { assert blank[k] == p[k]; } else { assert blank[k] == q[k - |p|]; }
      }
    }
    StripEmptyIffBlank(blank);
    if !IsSpace(c) {
      StripPadded(p, [c], q);
    }
  }

  /** The HAT edition forwards whatever the service returns, even an empty or one-letter transcript. */
  lemma HatForwardsEverything(audio: seq<Chunk>, text: string)
    requires audio != []
    ensures Transcribe(Wm8960Hat, audio, true, Transcript(text), true) == Heard(text, true)
  {
  }

  /** The editions differ exactly on short transcripts: "a" reaches the callback on the HAT edition only. */
  lemma EditionsDifferOnShortText(audio: seq<Chunk>)
    requires audio != []
    ensures Transcribe(Wm8960Hat, audio, true, Transcript("a"), true) == Heard("a", true)
    ensures Transcribe(GenericMic, audio, true, Transcript("a"), true) == Heard("a", false)
  {
    GenericMicIgnoresOneCharacter([], 'a', []);
    assert [] + ['a'] + [] == "a";
  }
}
