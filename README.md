# TARS mirror assistant: listening and the utterance callback, in Dafny

This project models the part of the TARS mirror assistant that turns
microphone audio into actions. It covers two pieces.

**The speech-to-text manager (`STTManager`).** It comes in two editions,
written out by `restore_ears.py` (a generic microphone) and by
`force_wm8960.py` (the Waveshare WM8960 HAT).

- Its listen loop resolves the OpenAI key and creates the Whisper client.
- The HAT edition first looks for the HAT's input device.
- The loop opens the input stream and drains the pending audio chunks through
  a level-triggered voice-activity state machine.
- It hands every finished recording to `_transcribe`, which forwards the
  transcript to the utterance callback. The generic edition first drops blank
  and one-character transcripts.

**`utterance_callback` and `initialize_managers` of `module_main.py`.**

- The callback extracts the user's text from JSON or plain text.
- It shows and queues that text.
- It recognises the three shutdown phrases and powers the machine off for them.
- Otherwise it asks the LLM and removes `<think>…</think>` spans from the reply.
- It shows and queues the reply, then speaks it with the characters outside
  the speech set removed.
- It logs any exception as one error.

Files:

- `text.dfy` (module `Text`): the Python `str` operations used here. These are
  `isspace`, `strip` and its halves, `lower`, `find` and `in`.
- `vad.dfy` (module `Vad`): the state machine as a pure step function `Step`
  and its fold `Run`.
  - A declarative description says what a drain produces. The input is quiet
    gaps, then finished utterances, then the recording still open.
  - Lemmas prove that `Run` meets this description, that the description has
    only one solution, and that the state invariant holds between chunks.
- `api_key.dfy` (module `ApiKey`): how the key is found. First the attribute,
  then the dictionary entry, then the environment variable.
- `wm8960_device.dfy` (module `Wm8960Device`): the device search, as a method
  with a loop.
- `transcription.dfy` (module `Transcription`): `_transcribe` in both editions.
- `stt.dfy` (module `Stt`): the `STTManager` class.
  - Its fields are `running`, the callback and `current_recording`.
  - Its methods are the constructor, `start`, `stop`,
    `set_utterance_callback`, the listen loop and the inner drain loop.
  - Both loops are proved against `Vad.Run`.
- `utterance_text.dfy` (module `UtteranceText`): the string rules of the
  callback. These are extraction, the shutdown phrases, the think-block
  removal and the speech filter.
- `main_module.dfy` (module `MainModule`): the callback as the ordered list of
  its outside effects, and the module globals as a class.

How the model stands in for what it cannot run:

- **Time and audio.** Each chunk carries two readings taken when it is
  processed: its computed volume and `time.time()`.
- **Audio arrival.** The chunks the driver's callback thread appends arrive as
  a sequence of batches. Each batch is what the loop finds pending when it
  looks, up to the point where `stop` or the shutdown event ends the loop.
- **The Whisper service.** It is a function from recordings to a response: a
  transcript or an exception.
- **JSON decoding.** `json.loads` is a datatype. The result is a decode error,
  an object with or without `text`, or another JSON value.
- **The LLM.** Its outcome is a datatype: a reply or an exception.

Some behaviour is reproduced exactly as the code has it:

- A message that decodes to a JSON value that is not an object raises in
  `.get`, and the callback logs it as an error. Examples are `"42"` or `"null"`.
- A `text` member that is not a string raises the same way.
- `silence_start` is not reset when an utterance ends.
- The closing test is a strict `>`.
- The speech set's `'-<` is a range from `'` to `<`, so it also keeps
  `( ) * + /`.

## Model

| member | source | states |
|---|---|---|
| Text.Strip | module_main.py:73 | the result has no whitespace at either end and is the infix of the input between a whitespace prefix and a whitespace suffix |
| Text.StripEmptyIffBlank | restore_ears.py:137 | `strip()` gives the empty string exactly when every character is whitespace |
| Text.StripPadded | module_main.py:70-73 | stripping whitespace padding around a stripped core yields the core |
| Text.IndexOf | module_main.py:102 | the result is the leftmost occurrence at or after the start index, or none exists |
| Text.Lower | module_main.py:84 | same length; each character lower-cased (ASCII and Latin-1 capitals) |
| Vad.Step | restore_ears.py:91-110 | a loud chunk starts or extends the recording and clears the timer. A quiet chunk while idle changes nothing. While recording, a quiet chunk is appended, and an utterance is handed on only when the state goes idle with an empty buffer and the hand-off is the old buffer plus the chunk |
| Vad.Run | restore_ears.py:86-110 | the inner `while audio_buffer` drain: each chunk is one `Step` in arrival order, the finished recordings are handed on in order, and there are never more of them than chunks |
| Vad.RunAppend | restore_ears.py:86-87 | draining `a` then `b` equals draining `a + b`: chunks are consumed in arrival order |
| Vad.RunSnoc | restore_ears.py:86-87 | draining one more chunk is one more step |
| Vad.RunQuietWhileIdle | restore_ears.py:91-102 | while idle, quiet chunks change nothing and hand nothing on |
| Vad.StepKeepsInv | restore_ears.py:91-110 | the invariant holds. An idle state has an empty buffer. While recording, the buffer is an open utterance and the timer marks the first chunk of its quiet tail. A recording step hands on exactly when the extended buffer closes, and what it hands on is a finished utterance |
| Vad.RecordingKeepsTimer | restore_ears.py:100-105 | while recording, `silence_start` is the clock of the first chunk of the current quiet run |
| Vad.RunKeepsInv | restore_ears.py:86-110 | draining any chunks keeps the invariant, and everything handed on is a finished utterance (loud start, closing at its last chunk and at no earlier one) |
| Vad.RunSegments | restore_ears.py:86-110 | the open buffer followed by the drained chunks is exactly quiet gaps, the utterances handed on in order, and the final open recording |
| Vad.UtterancePrefixUnique | restore_ears.py:106-110 | two finished utterances that start the same input are equal: an utterance ends at its first closing chunk |
| Vad.OpenPrefixNotClosed | restore_ears.py:102-106 | no prefix of a recording still open closes |
| Vad.SegmentationUnique | restore_ears.py:86-110 | the segmentation of an input into utterances and open rest is unique, so it determines the drain's output |
| Vad.IdleBufferIgnored | restore_ears.py:92-95 | a leftover `current_recording` at loop start never changes what is handed on: the first loud chunk replaces it |
| Vad.ListenSegments | restore_ears.py:42-110 | a listen loop over chunks hands on only finished utterances, and with the quiet gaps and the open recording they make up the input exactly |
| Vad.HangoverIsStrict | restore_ears.py:104-106 | with limit 0.2, quiet chunks 0.2 s after the first quiet one keep the recording open; the next one, 0.3 s after, ends it and hands on all five chunks |
| ApiKey.ConfigKey | restore_ears.py:49-57 | the attribute's value if the section has the attribute, otherwise the dict entry if the section is a dict holding it, otherwise `None` |
| ApiKey.ResolveApiKey | restore_ears.py:59-61 | the configured value when it is truthy, otherwise the environment variable's value |
| ApiKey.NoKeyIffNothingSupplied | restore_ears.py:60-72 | the loop gives up exactly when neither the configuration nor the environment supplies a non-empty key |
| ApiKey.AttributeShadowsEntry | force_wm8960.py:61-63 | an attribute, even `None` or empty, hides the dict entry; the environment then decides |
| ApiKey.ConfigBeatsEnvironment | restore_ears.py:60-61 | a truthy configured key makes the result independent of the environment |
| Wm8960Device.FindWm8960 | force_wm8960.py:38-49 | returns the smallest index whose lower-cased name contains "wm8960" and which has input channels, with every earlier entry readable; returns none when the query raises, when an unreadable entry comes first, or when nothing matches |
| Wm8960Device.ChosenUnique | force_wm8960.py:38-49 | at most one answer meets that description |
| Wm8960Device.NoHatMeansDefault | force_wm8960.py:47-49 | with no matching device or a failed query the default device (none) is used |
| Wm8960Device.NoInputNeverChosen | force_wm8960.py:44 | a device with no input channels never matches |
| Wm8960Device.MatchIgnoresCase | force_wm8960.py:44 | any spelling of "WM8960" in any case, at any index, matches |
| Wm8960Device.CapitalisedNameMatches | force_wm8960.py:44 | a name starting with "WM8960" and a device with input channels is recognised |
| Transcription.Transcribe | restore_ears.py:117-142 | skipped exactly for empty audio. Fails exactly when the audio is non-empty and there is no client or the service raises. Otherwise it hears the unstripped transcript and forwards it exactly when a callback is set and the edition's test passes |
| Transcription.Passes | restore_ears.py:137 | the generic edition forwards only a transcript with two or more characters left after `strip()`, so two of its characters are not whitespace; the HAT edition forwards every transcript (force_wm8960.py:129) |
| Transcription.GenericMicIgnoresOneCharacter | restore_ears.py:137-139 | the generic edition never forwards a blank transcript or a single visible character padded with whitespace |
| Transcription.HatForwardsEverything | force_wm8960.py:127-130 | the HAT edition forwards any transcript, even empty, when a callback is set |
| Transcription.EditionsDifferOnShortText | restore_ears.py:137-139 | the one-letter transcript "a" reaches the callback on the HAT edition only |
| Stt.EditionConfig | restore_ears.py:32-33 | both editions have a positive threshold and silence limit: 0.02 and 2.0 s for the generic edition, and 0.015 and 1.8 s for the HAT edition (force_wm8960.py:28-29) |
| Stt.STTManager.constructor | restore_ears.py:22-35 | not running, no callback, an empty recording, the edition's constants and the given gain |
| Stt.STTManager.Start | restore_ears.py:37-38 | sets `running` |
| Stt.STTManager.Stop | restore_ears.py:144 | clears `running` and nothing else |
| Stt.STTManager.SetUtteranceCallback | restore_ears.py:146 | the callback is set exactly when one is given |
| Stt.STTManager.ListenLoop | force_wm8960.py:51-114 | The HAT edition's device is the lookup's answer and the generic edition opens none. The exit is "no key" exactly when the library or the key is missing; "client raised" exactly for the HAT edition's raising constructor; "stream failed" exactly when the stream cannot open. Those exits deliver nothing and keep the recording. Otherwise the new recording and the deliveries are those of `Vad.Run` over all chunks in order, transcribed without a client when the generic edition's constructor raised |
| Stt.STTManager.Drain | restore_ears.py:86-110 | popping and processing the pending chunks front to back gives the state and transcriptions of `Vad.Run` over them |
| Stt.DrainStep | restore_ears.py:87-110 | one pass of the drain loop is one `Vad.Step`, and its transcription comes before the rest |
| Stt.NeverTranscribesEmpty | restore_ears.py:118 | no recording a listen loop hands on is empty, so `_transcribe`'s early return never fires |
| UtteranceText.ExtractText | module_main.py:66-73 | Text that is not JSON gives the stripped message. A JSON object gives its stripped `text` string, or empty when `text` is absent. A JSON value that is not an object, or a `text` that is not a string, raises. The result is always stripped |
| UtteranceText.IsShutdownCommand | module_main.py:84-85 | the lower-cased text contains "shutdown pc", "apágate" or "apagar sistema"; a command is at least as long as the shortest phrase |
| UtteranceText.PlainTextKept | module_main.py:71-73 | plain text is taken whole minus its whitespace padding |
| UtteranceText.EmptyIffBlank | module_main.py:73-76 | the callback returns right after extraction exactly when the plain message is blank |
| UtteranceText.CommandAnywhere | module_main.py:84-85 | any text containing one of the three phrases is a shutdown command |
| UtteranceText.CapitalsMatch | module_main.py:84-85 | capitals count: "APÁGATE" is a command |
| UtteranceText.GreetingIsNotCommand | module_main.py:84-85 | "hola" is not a command |
| UtteranceText.RemoveThinkBlocks | module_main.py:102 | never longer than its input; text without an opening tag is unchanged |
| UtteranceText.UnclosedKept | module_main.py:102 | an opening tag with no closing tag after it does not match, so the reply is kept whole, reasoning included |
| UtteranceText.CleanReply | module_main.py:102 | the reply is stripped; without a think block it is just the stripped raw reply |
| UtteranceText.RemovesFirstBlock | module_main.py:102 | the leftmost block is cut at its nearest closing tag, the text before it is kept, and removal goes on after it |
| UtteranceText.PlainReplyOnlyTrimmed | module_main.py:102 | a reply without `<think>` is only stripped |
| UtteranceText.ReasoningDropped | module_main.py:102 | a reasoning block followed by an answer keeps only the stripped answer |
| UtteranceText.CleanForSpeech | module_main.py:110 | the result is no longer than the input and holds only speech characters; an input made of speech characters is unchanged |
| UtteranceText.SpeechChar | module_main.py:110 | the character class: ASCII letters, digits, `\s`, `.,?!;:"`, the range `'` to `<` and `>`; the range also admits `( ) * + /`, and no character outside ASCII is kept unless it is whitespace |
| UtteranceText.CleanKeepsAllowed | module_main.py:110 | each allowed character is kept as often as it occurs, and each other character is removed entirely |
| UtteranceText.CleanIsSubsequence | module_main.py:110 | what is kept stays in its order: the result is a subsequence of the input |
| UtteranceText.CleanIdempotent | module_main.py:110 | filtering twice is filtering once |
| UtteranceText.CleanAppend | module_main.py:110 | the filter works piece by piece over concatenation |
| UtteranceText.SpanishLettersDropped | module_main.py:110 | accented vowels, ñ and the inverted marks are removed wherever they occur; brackets and `*` are kept |
| MainModule.Respond | module_main.py:61-115 | the screen saver is deactivated first exactly when the UI is present |
| MainModule.UtteranceCallback | module_main.py:56-115 | the screen saver is deactivated first exactly when the UI is present |
| MainModule.Prepare | module_main.py:99-110 | a raising completion is an error and any reply is answered; the shown reply is stripped, and the spoken text is a subsequence of it made only of speech characters |
| MainModule.EarlyPath | module_main.py:61-79 | with no UI, empty text or an extraction error there is at most the screen-saver call and then at most one logged error |
| MainModule.PowerOffIffCommand | module_main.py:78-96 | the machine powers off exactly when the UI is present and the extracted text is a non-empty shutdown command; the LLM is then never asked |
| MainModule.ShutdownFacts | module_main.py:85-96 | on the shutdown path the power goes off, the LLM is not asked and no error is logged |
| MainModule.AnswerFacts | module_main.py:98-115 | on the answer path the power stays on and an error can only be the last effect |
| MainModule.EarlyFacts | module_main.py:61-79 | on the early paths the power stays on and an error can only be the last effect |
| MainModule.EmptyTextDoesNothing | module_main.py:75-76 | empty text only wakes the screen (if there is a UI) |
| MainModule.NoUiNothingShown | module_main.py:79 | without a UI nothing is shown, queued, asked or spoken; at most one error is logged |
| MainModule.AnswerIsCleaned | module_main.py:99-112 | The LLM gets the user's text. The displayed and queued reply has its think blocks removed and is stripped. The spoken text is that reply filtered to speech characters, in order |
| MainModule.FailedReplyLogged | module_main.py:98-115 | an LLM request that raises ends the callback with one logged error; nothing is displayed or spoken for it |
| MainModule.ErrorIsLast | module_main.py:61-115 | no exception escapes: an error is logged at most once, and only as the last effect |
| MainModule.MainGlobals.constructor | module_main.py:34-41 | at import every manager is `None` and `stop_event` is an event |
| MainModule.MainGlobals.OnUtterance | module_main.py:56-63 | the callback sees a UI exactly when the `ui_manager` global is set; without one nothing is shown, queued, asked or spoken |
| MainModule.MainGlobals.InitializeManagers | module_main.py:122-130 | the six managers take the given values and `stop_event` is unchanged |

## Left out

- Audio capture, `sounddevice` and the WAV encoding are not modelled. A chunk carries its samples, its computed volume and the clock reading as inputs.
- The volume computation (`norm * amp_gain / len`) is floating point and is not modelled; the volume is an input.
- Threads, `time.sleep` polling and the race between the driver callback and the loop are not modelled. Arrival is a sequence of batches. The shutdown event and `running` are folded into the point where the batches end.
- Calls to the Whisper service, the OpenAI client and `process_completion` are network calls. They are inputs (`Response`, `Completion`).
- `Stt.STTManager.ListenLoop` models one kind of failure in the stream's `try`: the stream cannot be opened. An exception raised during the drain (by the device or by `_transcribe`'s WAV encoding) is not modelled.
- `json.loads` is an input (`Decoded`); the JSON grammar is not modelled.
- The UI manager, `queue_message`, `print` and `play_audio_chunks` are effects recorded by name only; their own failures (a TTS error during speech) are not modelled.
- The "Listening..." display update of the generic edition (restore_ears.py:96-97) is not modelled.
- The `start` messages and the thread launch are not modelled; `Start` only sets `running`.
- `self.config['TTS']` raising `KeyError` is not modelled: the section is assumed present.
- `CONFIG['TTS']['ttsoption']` (module_main.py:91 and 112) and `CONFIG['CHAR']['character_name']` (module_main.py:105) raising `KeyError` are not modelled: both entries are assumed present and the character name is an input. A missing `ttsoption` would log an error before the power-off, so `MainModule.PowerOffIffCommand` holds for a configuration that has both entries.
- `os.system('sudo shutdown -h now')` is the `PowerOff` effect; the machine's response is not modelled.
- `Text.Lower`: lower-cases ASCII and Latin-1 capitals only, not the whole Unicode case mapping of Python's `str.lower`; the shutdown phrases and "wm8960" are matched exactly for all text built from those letters.
- `wake_word_callback`, `post_utterance_callback`, `startup_initialization` and the stub methods of `STTManager` (`pause`, `resume`, `play_wav`, the other callback setters) do nothing relevant or are outside this core and are not modelled.
- The outer scripts' writing of `modules/module_stt.py` to disk is not modelled.
- `UtteranceText.RemoveThinkBlocks`: it is not idempotent (a tag can be formed by removing a block inside it), and no lemma states idempotence.
