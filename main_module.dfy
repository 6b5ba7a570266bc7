/**
 * `utterance_callback` and `initialize_managers` of module_main.py.
 *
 * The callback is modelled as the list of outside effects it has, in order:
 * screen-saver, display updates, message-queue entries, the LLM request,
 * speech, the two-second pause and the power-off. The LLM's answer and the
 * outcome of decoding the message as JSON are inputs. Any exception ends
 * the callback with one logged error; none escapes it.
 */
module MainModule {
  import opened Wrappers
  import opened Text
  import opened UtteranceText

  datatype Effect =
    | DeactivateScreensaver
    | Display(speaker: string, text: string, tag: string)   // ui_manager.update_data
    | Queue(message: string)                                // queue_message
    | AskLlm(prompt: string)                                // process_completion
    | Speak(text: string)                                   // play_audio_chunks
    | Pause(seconds: nat)                                   // time.sleep
    | PowerOff                                              // sudo shutdown -h now
    | LogError                                              // the outer `except`: queue_message("ERROR …")

  /** What `process_completion` does: returns a reply, or raises. */
  datatype Completion = Reply(text: string) | CompletionRaised

  const UserTag: string := "USER"
  const SystemTag: string := "SYSTEM"
  const ReplyTag: string := "TARS"
  const ShutdownNotice: string := "SYSTEM: Iniciando secuencia de apagado..."
  const Goodbye: string := "Goodbye."
  const Farewell: string := "Apagando sistemas."

  /** The effects of the shutdown path once the user's text has been shown. */
  function ShutdownEffects(): seq<Effect> {
    [Queue(ShutdownNotice), Display(SystemTag, Goodbye, SystemTag), Speak(Farewell), Pause(2), PowerOff]
  }

  /**
   * The reply as the callback uses it: without think blocks and trimmed for
   * display, and with only the speech characters for the voice.
   */
  datatype Answer = Answered(reply: string, spoken: string) | AnswerRaised

  function Prepare(completion: Completion): (a: Answer)
    ensures a.AnswerRaised? <==> completion.CompletionRaised?
    ensures a.Answered? ==> IsStripped(a.reply) && IsSubsequence(a.spoken, a.reply)
    ensures a.Answered? ==> forall k :: 0 <= k < |a.spoken| ==> SpeechChar(a.spoken[k])
  {
    match completion
    case CompletionRaised => AnswerRaised
    case Reply(raw) =>
      var reply := CleanReply(raw);
      CleanIsSubsequence(reply);
      Answered(reply, CleanForSpeech(reply))
  }

  /** The effects of the answer path once the user's text has been shown. */
  function AnswerEffects(charName: string, userText: string, answer: Answer): seq<Effect> {
    match answer
    case AnswerRaised => [AskLlm(userText), LogError]
    case Answered(reply, spoken) =>
      [AskLlm(userText), Display(charName, reply, ReplyTag), Queue(charName + ": " + reply), Speak(spoken)]
  }

  /**
   * The callback once the text has been extracted (`e`), tested for a
   * shutdown phrase (`isCommand`) and, on the answer path, answered.
   */
  function Respond(uiPresent: bool, charName: string, e: Extracted, isCommand: bool,
                   answer: Answer): (effects: seq<Effect>)
    ensures uiPresent <==> |effects| > 0 && effects[0] == DeactivateScreensaver
  {
    var start := if uiPresent then [DeactivateScreensaver] else [];
    match e
    case Raised => start + [LogError]
    case UserText(text) =>
      if text == [] then start
      else if !uiPresent then [LogError]   // update_data on a missing UI raises
      else
        var shown := start + [Display(UserTag, text, UserTag), Queue("USER: " + text)];
        if isCommand then shown + ShutdownEffects()
        else shown + AnswerEffects(charName, text, answer)
  }

  /**
   * `utterance_callback(message)`. `uiPresent` says whether `ui_manager` is
   * set, `charName` is the configured character name, `decoded` is what
   * `json.loads(message)` gives and `completion` what the LLM does.
   */
  function UtteranceCallback(uiPresent: bool, charName: string, message: string, decoded: Decoded,
                             completion: Completion): (effects: seq<Effect>)
    ensures uiPresent <==> |effects| > 0 && effects[0] == DeactivateScreensaver
  {
    var e := ExtractText(message, decoded);
    Respond(uiPresent, charName, e, e.UserText? && IsShutdownCommand(e.text), Prepare(completion))
  }

  /** Text is shown (and so can reach the LLM or the power switch) only with a UI and non-empty text. */
  predicate Proceeds(uiPresent: bool, e: Extracted) {
    uiPresent && e.UserText? && e.text != []
  }

  /** The shutdown path of `Respond`, effect by effect. */
  lemma ShutdownPath(charName: string, e: Extracted, answer: Answer)
    requires Proceeds(true, e)
    ensures Respond(true, charName, e, true, answer)
         == [DeactivateScreensaver, Display(UserTag, e.text, UserTag), Queue("USER: " + e.text)] + ShutdownEffects()
  {
  }

  /** The answer path of `Respond`, effect by effect. */
  lemma AnswerPath(charName: string, e: Extracted, answer: Answer)
    requires Proceeds(true, e)
    ensures Respond(true, charName, e, false, answer)
         == [DeactivateScreensaver, Display(UserTag, e.text, UserTag), Queue("USER: " + e.text)]
            + AnswerEffects(charName, e.text, answer)
  {
  }

  /** Every other path of `Respond`: at most the screen-saver call, then at most one logged error. */
  lemma EarlyPath(uiPresent: bool, charName: string, e: Extracted, isCommand: bool, answer: Answer)
    requires !Proceeds(uiPresent, e)
    ensures Respond(uiPresent, charName, e, isCommand, answer)
         == (if uiPresent then [DeactivateScreensaver] else []) + (if e.Raised? || e.text != [] then [LogError] else [])
  {
    var none: seq<Effect> := [];
    if e.Raised? || e.text != [] {
      assert none + [LogError] == [LogError];
    } else {
      assert [DeactivateScreensaver] + none == [DeactivateScreensaver];
      assert none + none == none;
    }
  }

  /**
   * The machine powers off exactly when the UI is up and the extracted text
   * is a non-empty shutdown command; the LLM is then never asked.
   */
  lemma PowerOffIffCommand(uiPresent: bool, charName: string, message: string, decoded: Decoded,
                           completion: Completion)
    ensures var effects := UtteranceCallback(uiPresent, charName, message, decoded, completion);
      var e := ExtractText(message, decoded);
      && (PowerOff in effects <==> Proceeds(uiPresent, e) && IsShutdownCommand(e.text))
      && (PowerOff in effects ==> forall k :: 0 <= k < |effects| ==> !effects[k].AskLlm?)
  {
    var e := ExtractText(message, decoded);
    var isCommand := e.UserText? && IsShutdownCommand(e.text);
    RespondPowerOff(uiPresent, charName, e, isCommand, Prepare(completion));
  }

  lemma RespondPowerOff(uiPresent: bool, charName: string, e: Extracted, isCommand: bool, answer: Answer)
    ensures var effects := Respond(uiPresent, charName, e, isCommand, answer);
      && (PowerOff in effects <==> Proceeds(uiPresent, e) && isCommand)
      && (PowerOff in effects ==> forall k :: 0 <= k < |effects| ==> !effects[k].AskLlm?)
  {
    if !Proceeds(uiPresent, e) {
      EarlyFacts(uiPresent, charName, e, isCommand, answer);
    } else if isCommand {
      ShutdownFacts(charName, e, answer);
    } else {
      AnswerFacts(charName, e, answer);
    }
  }

  /** On the shutdown path the power goes off, the LLM is not asked and no error is logged. */
  lemma ShutdownFacts(charName: string, e: Extracted, answer: Answer)
    requires Proceeds(true, e)
    ensures var effects := Respond(true, charName, e, true, answer);
      && PowerOff in effects
      && (forall k :: 0 <= k < |effects| ==> !effects[k].AskLlm?)
      && LogError !in effects
  {
    ShutdownPath(charName, e, answer);
  }

  /** On the answer path the power stays on and an error, if any, comes last. */
  lemma AnswerFacts(charName: string, e: Extracted, answer: Answer)
    requires Proceeds(true, e)
    ensures var effects := Respond(true, charName, e, false, answer);
      && PowerOff !in effects
      && LogError !in effects[..|effects| - 1]
  {
    AnswerPath(charName, e, answer);
    var prefix := [DeactivateScreensaver, Display(UserTag, e.text, UserTag), Queue("USER: " + e.text)];
    match answer
    case AnswerRaised =>
      PrefixThenTail(prefix, [AskLlm(e.text)], LogError);
    case Answered(reply, spoken) =>
      PrefixThenTail(prefix, [AskLlm(e.text), Display(charName, reply, ReplyTag), Queue(charName + ": " + reply)],
                     Speak(spoken));
  }

  /** Effects that log no error and do not power off, followed by one last effect. */
  lemma PrefixThenTail(prefix: seq<Effect>, rest: seq<Effect>, last: Effect)
    requires PowerOff !in prefix && LogError !in prefix
    requires PowerOff !in rest && LogError !in rest && last != PowerOff
    ensures var effects := prefix + rest + [last];
      && PowerOff !in effects
      && LogError !in effects[..|effects| - 1]
  {
    var effects := prefix + rest + [last];
    assert effects[..|effects| - 1] == prefix + rest;
  }

  /** On every other path the power stays on and an error, if any, comes last. */
  lemma EarlyFacts(uiPresent: bool, charName: string, e: Extracted, isCommand: bool, answer: Answer)
    requires !Proceeds(uiPresent, e)
    ensures var effects := Respond(uiPresent, charName, e, isCommand, answer);
      && PowerOff !in effects
      && (effects != [] ==> LogError !in effects[..|effects| - 1])
  {
    EarlyPath(uiPresent, charName, e, isCommand, answer);
  }

  /**
   * Empty or blank text returns at once: apart from waking the screen,
   * nothing is shown, queued, asked or spoken.
   */
  lemma EmptyTextDoesNothing(uiPresent: bool, charName: string, message: string, decoded: Decoded,
                             completion: Completion)
    requires ExtractText(message, decoded) == UserText([])
    ensures UtteranceCallback(uiPresent, charName, message, decoded, completion)
         == (if uiPresent then [DeactivateScreensaver] else [])
  {
    EarlyPath(uiPresent, charName, UserText([]), false, Prepare(completion));
  }

  /**
   * Without a UI the callback fails at its first display update (or at the
   * extraction): at most one error is logged, and nothing is queued, asked
   * or spoken.
   */
  lemma NoUiNothingShown(charName: string, message: string, decoded: Decoded, completion: Completion)
    ensures var effects := UtteranceCallback(false, charName, message, decoded, completion);
      effects == [] || effects == [LogError]
  {
    var e := ExtractText(message, decoded);
    EarlyPath(false, charName, e, e.UserText? && IsShutdownCommand(e.text), Prepare(completion));
  }

  /**
   * On the answer path the LLM is asked with the user's text; what is
   * displayed is the reply without think blocks, trimmed, and what is
   * spoken is that reply with the characters outside the speech set
   * removed, in their order.
   */
  lemma AnswerIsCleaned(charName: string, message: string, decoded: Decoded, raw: string)
    requires Proceeds(true, ExtractText(message, decoded))
    requires !IsShutdownCommand(ExtractText(message, decoded).text)
    ensures var effects := UtteranceCallback(true, charName, message, decoded, Reply(raw));
      var reply := CleanReply(raw);
      && |effects| == 7
      && effects[3] == AskLlm(ExtractText(message, decoded).text)
      && effects[4] == Display(charName, reply, ReplyTag)
      && effects[5] == Queue(charName + ": " + reply)
      && effects[6] == Speak(CleanForSpeech(reply))
      && IsSubsequence(effects[6].text, reply)
      && (forall k :: 0 <= k < |effects[6].text| ==> SpeechChar(effects[6].text[k]))
  {
    var e := ExtractText(message, decoded);
    var reply := CleanReply(raw);
    assert Prepare(Reply(raw)) == Answered(reply, CleanForSpeech(reply));
    AnsweredEffects(charName, e, reply, CleanForSpeech(reply));
    CleanIsSubsequence(reply);
  }

  /** A reply lands at effects 4 to 6, after the request at effect 3. */
  lemma AnsweredEffects(charName: string, e: Extracted, reply: string, spoken: string)
    requires Proceeds(true, e)
    ensures var effects := Respond(true, charName, e, false, Answered(reply, spoken));
      && |effects| == 7
      && effects[3] == AskLlm(e.text)
      && effects[4] == Display(charName, reply, ReplyTag)
      && effects[5] == Queue(charName + ": " + reply)
      && effects[6] == Speak(spoken)
  {
    AnswerPath(charName, e, Answered(reply, spoken));
  }

  /** A request to the LLM that raises is logged as the last effect: nothing is displayed or spoken for it. */
  lemma FailedReplyLogged(charName: string, message: string, decoded: Decoded)
    requires Proceeds(true, ExtractText(message, decoded))
    requires !IsShutdownCommand(ExtractText(message, decoded).text)
    ensures var text := ExtractText(message, decoded).text;
      UtteranceCallback(true, charName, message, decoded, CompletionRaised)
      == [DeactivateScreensaver, Display(UserTag, text, UserTag), Queue("USER: " + text), AskLlm(text), LogError]
  {
    var e := ExtractText(message, decoded);
    AnswerPath(charName, e, AnswerRaised);
  }

  /** No exception escapes: an error is logged at most once, and only as the last effect. */
  lemma ErrorIsLast(uiPresent: bool, charName: string, message: string, decoded: Decoded,
                    completion: Completion)
    ensures var effects := UtteranceCallback(uiPresent, charName, message, decoded, completion);
      effects != [] ==> LogError !in effects[..|effects| - 1]
  {
    var e := ExtractText(message, decoded);
    RespondErrorIsLast(uiPresent, charName, e, e.UserText? && IsShutdownCommand(e.text), Prepare(completion));
  }

  lemma RespondErrorIsLast(uiPresent: bool, charName: string, e: Extracted, isCommand: bool, answer: Answer)
    ensures var effects := Respond(uiPresent, charName, e, isCommand, answer);
      effects != [] ==> LogError !in effects[..|effects| - 1]
  {
    if !Proceeds(uiPresent, e) {
      EarlyFacts(uiPresent, charName, e, isCommand, answer);
    } else if isCommand {
      ShutdownFacts(charName, e, answer);
    } else {
      AnswerFacts(charName, e, answer);
    }
  }

  // ---------------------------------------------------------------------
  // Module globals
  // ---------------------------------------------------------------------

  /** A module global: `None` or some object. */
  datatype Ref = Null | Obj(id: nat)

  /** The module-level globals of module_main.py that `initialize_managers` and the callbacks use. */
  class MainGlobals {
    var memoryManager: Ref
    var characterManager: Ref
    var sttManager: Ref
    var uiManager: Ref
    var shutdownEvent: Ref
    var batteryModule: Ref
    var stopEvent: Ref

    /** At import: every manager is `None`, and `stop_event` is a fresh event. */
    constructor(stopEvent: Ref)
      requires stopEvent.Obj?
      ensures memoryManager == Null && characterManager == Null && sttManager == Null
      ensures uiManager == Null && shutdownEvent == Null && batteryModule == Null
      ensures this.stopEvent == stopEvent && this.stopEvent.Obj?
    {
      memoryManager, characterManager, sttManager := Null, Null, Null;
      uiManager, shutdownEvent, batteryModule := Null, Null, Null;
      this.stopEvent := stopEvent;
    }

    /**
     * `initialize_managers(...)`: the six managers take the arguments'
     * values (the last two default to `None`) and `stop_event` is left alone.
     */
    method InitializeManagers(memManager: Ref, charManager: Ref, sttMgr: Ref, uiMgr: Ref,
                              shutdownEvt: Ref, batteryMod: Ref)
      modifies this`memoryManager, this`characterManager, this`sttManager,
               this`uiManager, this`shutdownEvent, this`batteryModule
      ensures memoryManager == memManager && characterManager == charManager && sttManager == sttMgr
      ensures uiManager == uiMgr && shutdownEvent == shutdownEvt && batteryModule == batteryMod
      ensures stopEvent == old(stopEvent)
    {
      memoryManager := memManager;
      characterManager := charManager;
      sttManager := sttMgr;
      uiManager := uiMgr;
      shutdownEvent := shutdownEvt;
      batteryModule := batteryMod;
    }

    /** Whether the callback sees a UI: `if ui_manager:`. */
    predicate UiPresent()
      reads this
    {
      uiManager != Null
    }

    /**
     * `utterance_callback(message)` run against these globals: it sees a UI
     * exactly when `initialize_managers` was given one. Before that, or
     * with no UI, nothing is shown, queued, asked or spoken.
     */
    method OnUtterance(charName: string, message: string, decoded: Decoded, completion: Completion)
      returns (effects: seq<Effect>)
      ensures effects == UtteranceCallback(UiPresent(), charName, message, decoded, completion)
      ensures uiManager == Null ==> effects == [] || effects == [LogError]
      ensures uiManager != Null ==> |effects| > 0 && effects[0] == DeactivateScreensaver
    {
      effects := UtteranceCallback(UiPresent(), charName, message, decoded, completion);
      if !UiPresent() {
        NoUiNothingShown(charName, message, decoded, completion);
      }
    }
  }
}
