/** The voice interface: availability of the speech libraries, the
    `enabled`/`listening` flags (never listening while disabled), a table of
    voice commands keyed by their lower-cased text in registration order,
    and the dispatch of a heard utterance through the wake word. Speech
    itself is not processed; callbacks are opaque and what calling one
    yields is a parameter. */
module Voice {
  import opened Text
  import opened PyDict

  /** A registered callback, known only by its identity. */
  datatype Callback = Callback(name: string)

  /** What calling a callback gave: a value (possibly None), or an
      exception with its message. */
  datatype CallbackResult = Returned(value: Option<string>) | Raised(message: string)

  datatype VoiceStatus = VoiceStatus(
    enabled: bool,
    listening: bool,
    wakeWord: string,
    speechRecognitionAvailable: bool,
    textToSpeechAvailable: bool,
    registeredCommands: nat,
    commandList: seq<string>)

  /** The utterance as compared: `audio_text.lower().strip()` */
  function Heard(audio: string): string
  {
    Strip(Lower(audio))
  }

  /** The command part: the heard text with every wake-word occurrence cut
      out, stripped. */
  function CommandText(audio: string, wakeWord: string): string
  {
    Strip(RemoveAll(Heard(audio), wakeWord))
  }

  /** None of the first `n` keys is contained in `text`. */
  predicate NoneBefore(keys: seq<string>, text: string, n: int)
  {
    forall i :: 0 <= i < n && i < |keys| ==> !Contains(text, keys[i])
  }

  /** Key `i` is the first key contained in `text`. */
  predicate FirstHit(keys: seq<string>, text: string, i: int)
  {
    0 <= i < |keys| && Contains(text, keys[i]) && NoneBefore(keys, text, i)
  }

  /** The index of the first key contained in `text`, or -1 if none is. */
  function FirstMatch(keys: seq<string>, text: string): (r: int)
    ensures -1 <= r < |keys|
    ensures r == -1 <==> NoneBefore(keys, text, |keys|)
    ensures r >= 0 ==> FirstHit(keys, text, r)
  {
    if |keys| == 0 then -1
    else if Contains(text, keys[0]) then 0
    else
      var r := FirstMatch(keys[1..], text);
      if r == -1 then -1 else r + 1
  }

  /** The reply a callback's outcome becomes. */
  function Handled(result: CallbackResult): Option<string>
  {
    match result
    case Returned(v) => v
    case Raised(e) => Some("Error executing voice command: " + e)
  }

  /** `process_voice_input` as a function of the interface's state. */
  function Respond(enabled: bool, wakeWord: string, commands: Dict<string, Callback>, audio: string,
                   invoke: (Callback, string) -> CallbackResult): (r: Option<string>)
    requires commands.Valid()
    ensures !enabled || !Contains(Heard(audio), wakeWord) ==> r == None
    ensures enabled && Contains(Heard(audio), wakeWord) &&
            NoneBefore(commands.keys, CommandText(audio, wakeWord), |commands.keys|) ==>
              r == Some("Voice command received: " + CommandText(audio, wakeWord))
    ensures enabled && Contains(Heard(audio), wakeWord) ==>
              forall i :: FirstHit(commands.keys, CommandText(audio, wakeWord), i) ==>
                commands.keys[i] in commands.items &&
                r == Handled(invoke(commands.items[commands.keys[i]], CommandText(audio, wakeWord)))
  {
    if !enabled || !Contains(Heard(audio), wakeWord) then None
    else
      var text := CommandText(audio, wakeWord);
      var i := FirstMatch(commands.keys, text);
      if i == -1 then Some("Voice command received: " + text)
      else Handled(invoke(commands.items[commands.keys[i]], text))
  }

  /** Upper- or lower-case, an utterance gets the same response. */
  lemma RespondIgnoresCase(enabled: bool, wakeWord: string, commands: Dict<string, Callback>, audio: string,
                           invoke: (Callback, string) -> CallbackResult)
    requires commands.Valid()
    ensures Respond(enabled, wakeWord, commands, Upper(audio), invoke) == Respond(enabled, wakeWord, commands, audio, invoke)
  {
    LowerOfUpper(audio);
  }

  class VoiceInterface {
    var enabled: bool
    var speechRecognitionAvailable: bool
    var textToSpeechAvailable: bool
    var voiceCommands: Dict<string, Callback>
    var wakeWord: string
    var listening: bool

    /** The interface never listens while it is disabled. */
    ghost predicate Valid()
      reads this
    {
      (listening ==> enabled) && voiceCommands.Valid()
    }

    constructor()
      ensures Valid()
      ensures !enabled && !listening && !speechRecognitionAvailable && !textToSpeechAvailable
      ensures voiceCommands.items == map[] && wakeWord == "starkai"
    {
      enabled := false;
      speechRecognitionAvailable := false;
      textToSpeechAvailable := false;
      voiceCommands := Empty();
      wakeWord := "starkai";
      listening := false;
    }

    /** `initialize`: each library found switches its flag on; one that is
        missing leaves the flag as it was. */
    method Initialize(speechRecognitionFound: bool, textToSpeechFound: bool)
      requires Valid()
      modifies this
      ensures Valid()
      ensures speechRecognitionAvailable == (old(speechRecognitionAvailable) || speechRecognitionFound)
      ensures textToSpeechAvailable == (old(textToSpeechAvailable) || textToSpeechFound)
      ensures enabled == old(enabled) && listening == old(listening)
      ensures voiceCommands == old(voiceCommands) && wakeWord == old(wakeWord)
    {
      if speechRecognitionFound {
        speechRecognitionAvailable := true;
      }
      if textToSpeechFound {
        textToSpeechAvailable := true;
      }
    }

    /** `enable_voice`: only with both libraries available. */
    method EnableVoice() returns (ok: bool)
      requires Valid()
      modifies this
      ensures Valid()
      ensures ok <==> old(speechRecognitionAvailable) && old(textToSpeechAvailable)
      ensures ok ==> enabled
      ensures !ok ==> unchanged(this)
      ensures listening == old(listening) && voiceCommands == old(voiceCommands) && wakeWord == old(wakeWord)
      ensures speechRecognitionAvailable == old(speechRecognitionAvailable)
      ensures textToSpeechAvailable == old(textToSpeechAvailable)
    {
      if !speechRecognitionAvailable || !textToSpeechAvailable {
        return false;
      }
      enabled := true;
      ok := true;
    }

    /** `disable_voice` */
    method DisableVoice()
      requires Valid()
      modifies this
      ensures Valid()
      ensures !enabled && !listening
      ensures voiceCommands == old(voiceCommands) && wakeWord == old(wakeWord)
      ensures speechRecognitionAvailable == old(speechRecognitionAvailable)
      ensures textToSpeechAvailable == old(textToSpeechAvailable)
    {
      enabled := false;
      listening := false;
    }

    /** `start_listening`: only once enabled. */
    method StartListening()
      requires Valid()
      modifies this
      ensures Valid()
      ensures listening == (old(listening) || old(enabled))
      ensures enabled == old(enabled)
      ensures voiceCommands == old(voiceCommands) && wakeWord == old(wakeWord)
      ensures speechRecognitionAvailable == old(speechRecognitionAvailable)
      ensures textToSpeechAvailable == old(textToSpeechAvailable)
    {
      if !enabled {
        return;
      }
      listening := true;
    }

    /** `stop_listening` */
    method StopListening()
      requires Valid()
      modifies this
      ensures Valid()
      ensures !listening && enabled == old(enabled)
      ensures voiceCommands == old(voiceCommands) && wakeWord == old(wakeWord)
      ensures speechRecognitionAvailable == old(speechRecognitionAvailable)
      ensures textToSpeechAvailable == old(textToSpeechAvailable)
    {
      listening := false;
    }

    /** `register_voice_command`: the callback goes under the lower-cased
        command, replacing any earlier one with the same lower-cased text
        (which keeps its place in the order). */
    method RegisterVoiceCommand(command: string, callback: Callback)
      requires Valid()
      modifies this
      ensures Valid()
      ensures voiceCommands.items == old(voiceCommands.items)[Lower(command) := callback]
      ensures voiceCommands.keys ==
                if Lower(command) in old(voiceCommands.items) then old(voiceCommands.keys)
                else old(voiceCommands.keys) + [Lower(command)]
      ensures enabled == old(enabled) && listening == old(listening) && wakeWord == old(wakeWord)
      ensures speechRecognitionAvailable == old(speechRecognitionAvailable)
      ensures textToSpeechAvailable == old(textToSpeechAvailable)
    {
      voiceCommands := voiceCommands.Put(Lower(command), callback);
    }

    /** `process_voice_input`: reads the command table in order; calling
        a callback is `invoke`. */
    method ProcessVoiceInput(audio: string, invoke: (Callback, string) -> CallbackResult) returns (r: Option<string>)
      requires Valid()
      ensures r == Respond(enabled, wakeWord, voiceCommands, audio, invoke)
    {
      if !enabled {
        return None;
      }
      var heard := Strip(Lower(audio));
      if !Contains(heard, wakeWord) {
        return None;
      }
      var text := Strip(RemoveAll(heard, wakeWord));
      var keys := voiceCommands.keys;
      var i := 0;
      while i < |keys|
        invariant 0 <= i <= |keys|
        invariant NoneBefore(keys, text, i)
      {
        if Contains(text, keys[i]) {
          var result := invoke(voiceCommands.items[keys[i]], text);
          match result
          case Returned(v) => return v;
          case Raised(e) => return Some("Error executing voice command: " + e);
        }
        i := i + 1;
      }
      r := Some("Voice command received: " + text);
    }

    /** `set_voice_settings`: a wake word is stored lower-cased; an
        `enabled` setting goes through `enable_voice` or `disable_voice`. */
    method SetVoiceSettings(newWakeWord: Option<string>, enable: Option<bool>)
      requires Valid()
      modifies this
      ensures Valid()
      ensures wakeWord == if newWakeWord.Some? then Lower(newWakeWord.value) else old(wakeWord)
      ensures enable == None ==> enabled == old(enabled) && listening == old(listening)
      ensures enable == Some(true) ==>
                enabled == (old(enabled) || (speechRecognitionAvailable && textToSpeechAvailable))
                && listening == old(listening)
      ensures enable == Some(false) ==> !enabled && !listening
      ensures voiceCommands == old(voiceCommands)
      ensures speechRecognitionAvailable == old(speechRecognitionAvailable)
      ensures textToSpeechAvailable == old(textToSpeechAvailable)
    {
      if newWakeWord.Some? {
        wakeWord := Lower(newWakeWord.value);
      }
      if enable.Some? {
        if enable.value {
          var ok := EnableVoice();
        } else {
          DisableVoice();
        }
      }
    }

    /** `get_voice_status` */
    method GetVoiceStatus() returns (s: VoiceStatus)
      requires Valid()
      ensures s.enabled == enabled && s.listening == listening && s.wakeWord == wakeWord
      ensures s.speechRecognitionAvailable == speechRecognitionAvailable
      ensures s.textToSpeechAvailable == textToSpeechAvailable
      ensures s.registeredCommands == |voiceCommands.items| && s.commandList == voiceCommands.keys
      ensures s.listening ==> s.enabled
    {
      voiceCommands.Size();
      s := VoiceStatus(enabled, listening, wakeWord, speechRecognitionAvailable, textToSpeechAvailable,
                       |voiceCommands.keys|, voiceCommands.keys);
    }
  }
}
