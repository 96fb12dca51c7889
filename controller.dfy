/**
 * The client's controller as the script runs it: one object whose fields are the
 * script's module-level variables, with one method per handler. Each method
 * changes only the fields of the part of the client it belongs to, step by step,
 * and is proved to end in the state the corresponding function of `Session`
 * describes; `Valid()` is that module's invariant and every handler keeps it.
 */
module Controller {
  import opened Wrappers
  import opened Text
  import opened Voices
  import opened Session

  class VoiceSession {
    // the socket
    var isOpen: bool
    var outbound: seq<string>
    // the chat transcript
    var messages: seq<Message>
    // speech synthesis
    var voices: seq<Voice>
    var selectedVoiceIndex: int
    var isSpeaking: bool
    var currentUtterance: Option<Utterance>
    var nextUtteranceId: nat
    var speakTimers: seq<SpeakTimer>
    var synthesisCalls: seq<SynthesisCall>
    // speech recognition
    var hasRecognition: bool
    var isListening: bool
    var manualStop: bool
    var lastUserText: string
    var lastFinalUserTs: int
    var restartTimers: seq<int>
    var recognitionCalls: seq<RecognitionCall>

    ghost function ChannelState(): Channel
      reads this`isOpen, this`outbound
    {
      Channel(isOpen, outbound)
    }

    ghost function PlaybackState(): Playback
      reads this`voices, this`selectedVoiceIndex, this`isSpeaking, this`currentUtterance,
            this`nextUtteranceId, this`speakTimers, this`synthesisCalls
    {
      Playback(voices, selectedVoiceIndex, isSpeaking, currentUtterance, nextUtteranceId, speakTimers, synthesisCalls)
    }

    ghost function CaptureState(): Capture
      reads this`hasRecognition, this`isListening, this`manualStop, this`lastUserText,
            this`lastFinalUserTs, this`restartTimers, this`recognitionCalls
    {
      Capture(hasRecognition, isListening, manualStop, lastUserText, lastFinalUserTs, restartTimers, recognitionCalls)
    }

    /** The fields as one value. */
    ghost function State(): State
      reads this
    {
      Session.State(ChannelState(), messages, PlaybackState(), CaptureState())
    }

    ghost predicate Valid()
      reads this
    {
      PlaybackInv(PlaybackState()) && CaptureInv(CaptureState())
    }

    /** Page load: the socket is connecting and the voice list is populated once. */
    constructor (available: seq<Voice>)
      ensures Valid()
      ensures State() == Init(available)
    {
      isOpen, outbound, messages := false, [], [];
      voices, selectedVoiceIndex := [], 0;
      isSpeaking, currentUtterance, nextUtteranceId := false, None, 0;
      speakTimers, synthesisCalls := [], [];
      hasRecognition, isListening, manualStop := false, false, false;
      lastUserText, lastFinalUserTs := "", 0;
      restartTimers, recognitionCalls := [], [];
      new;
      PopulateVoiceList(available);
    }

    // ------------------------------------------------------------ channel

    /** The host opened the socket. */
    method SocketOpened()
      requires Valid()
      modifies this`isOpen
      ensures ChannelState() == old(ChannelState()).(isOpen := true)
      ensures Valid()
    {
      isOpen := true;
    }

    /** The host closed the socket. */
    method SocketClosed()
      requires Valid()
      modifies this`isOpen
      ensures ChannelState() == old(ChannelState()).(isOpen := false)
      ensures Valid()
    {
      isOpen := false;
    }

    method SendToServer(text: string)
      modifies this`outbound
      ensures ChannelState() == Send(old(ChannelState()), text)
    {
      if isOpen {
        outbound := outbound + [text];
      }
    }

    /** `addMessage`: one entry at the end of the transcript. */
    method AddMessage(text: string, role: Role, source: Option<string>)
      modifies this`messages
      ensures messages == old(messages) + [Message(text, role, source)]
    {
      messages := messages + [Message(text, role, source)];
    }

    // ------------------------------------------------------------ playback

    method PopulateVoiceList(available: seq<Voice>)
      requires Valid()
      modifies this`voices, this`selectedVoiceIndex
      ensures PlaybackState() == Session.PopulateVoiceList(old(PlaybackState()), available)
      ensures Valid()
    {
      voices := available;
      selectedVoiceIndex := PreferredIndex(available);
    }

    /** The voice selector's change handler, given the parsed option value. */
    method SelectVoice(parsed: Option<int>)
      requires Valid()
      modifies this`selectedVoiceIndex
      ensures PlaybackState() == Session.SelectVoice(old(PlaybackState()), parsed)
      ensures Valid()
    {
      selectedVoiceIndex := SelectedIndex(parsed);
    }

    method CancelTts(force: bool)
      modifies this`isSpeaking, this`currentUtterance, this`synthesisCalls
      ensures PlaybackState() == Session.CancelTts(old(PlaybackState()), force)
    {
      if force {
        synthesisCalls := synthesisCalls + [SynthCancel];
      }
      isSpeaking := false;
      currentUtterance := None;
    }

    method SpeakWithGap(text: string, now: int)
      modifies this`isSpeaking, this`currentUtterance, this`synthesisCalls, this`nextUtteranceId, this`speakTimers
      ensures PlaybackState() == Session.SpeakWithGap(old(PlaybackState()), text, now, lastFinalUserTs)
    {
      CancelTts(true);
      var u := Utterance(nextUtteranceId, text, VoiceAt(voices, selectedVoiceIndex));
      nextUtteranceId := nextUtteranceId + 1;
      currentUtterance := Some(u);
      var wait := GapWait(now, lastFinalUserTs);
      speakTimers := speakTimers + [SpeakTimer(u, now + wait)];
    }

    /** The `i`-th pending speak timer fires. */
    method FireSpeakTimer(i: nat)
      requires Valid()
      requires i < |speakTimers|
      modifies this`speakTimers, this`synthesisCalls
      ensures PlaybackState() == Session.FireSpeakTimer(old(PlaybackState()), i)
      ensures Valid()
    {
      var timer := speakTimers[i];
      speakTimers := RemoveAt(speakTimers, i);
      synthesisCalls := synthesisCalls + [SynthSpeak(timer.utterance)];
    }

    /** An utterance's `onstart`. */
    method OnUtteranceStart()
      requires Valid()
      modifies this`isSpeaking
      ensures PlaybackState() == Session.OnUtteranceStart(old(PlaybackState()))
      ensures Valid()
    {
      isSpeaking := true;
    }

    /** An utterance's `onend` or `onerror`. */
    method OnUtteranceDone()
      requires Valid()
      modifies this`isSpeaking, this`currentUtterance
      ensures PlaybackState() == Session.OnUtteranceDone(old(PlaybackState()))
      ensures Valid()
    {
      isSpeaking := false;
      currentUtterance := None;
    }

    /** `recognition.onspeechstart`: barge-in. */
    method OnSpeechStart()
      requires Valid()
      modifies this`isSpeaking, this`currentUtterance, this`synthesisCalls
      ensures PlaybackState() == BargeIn(old(PlaybackState()))
      ensures Valid()
    {
      if isSpeaking {
        CancelTts(true);
      }
    }

    // ------------------------------------------------------------ recognition

    method StartRecognition()
      modifies this`hasRecognition, this`manualStop, this`recognitionCalls
      ensures CaptureState() == Session.StartRecognition(old(CaptureState()))
    {
      if !hasRecognition {
        hasRecognition := true;
      }
      if isListening {
        return;
      }
      manualStop := false;
      recognitionCalls := recognitionCalls + [RecStart];
    }

    method StopRecognition()
      modifies this`manualStop, this`recognitionCalls, this`isListening
      ensures CaptureState() == Session.StopRecognition(old(CaptureState()))
    {
      if !hasRecognition {
        return;
      }
      manualStop := true;
      recognitionCalls := recognitionCalls + [RecStop];
      recognitionCalls := recognitionCalls + [RecAbort];
      isListening := false;
    }

    method OnRecognitionStart()
      requires Valid()
      requires hasRecognition
      modifies this`isListening
      ensures CaptureState() == Session.OnRecognitionStart(old(CaptureState()))
      ensures Valid()
    {
      isListening := true;
    }

    method OnError(error: string, now: int)
      requires Valid()
      modifies this`isListening, this`restartTimers
      ensures CaptureState() == Session.OnError(old(CaptureState()), error, now)
      ensures Valid()
    {
      isListening := false;
      if !manualStop && error != PERMISSION_DENIED {
        restartTimers := restartTimers + [now + RESTART_DELAY_MS];
      }
    }

    method OnEnd(now: int)
      requires Valid()
      modifies this`isListening, this`restartTimers
      ensures CaptureState() == Session.OnEnd(old(CaptureState()), isSpeaking, now)
      ensures Valid()
    {
      isListening := false;
      if !manualStop && !isSpeaking {
        restartTimers := restartTimers + [now + RESTART_DELAY_MS];
      }
    }

    /** The `i`-th pending restart timer fires. */
    method FireRestartTimer(i: nat)
      requires Valid()
      requires i < |restartTimers|
      modifies this`restartTimers, this`hasRecognition, this`manualStop, this`recognitionCalls
      ensures CaptureState() == Session.FireRestartTimer(old(CaptureState()), i)
      ensures Valid()
    {
      restartTimers := RemoveAt(restartTimers, i);
      StartRecognition();
    }

    // ------------------------------------------------------------ coordination

    /** The final branch of `recognition.onresult`: the trimmed transcript is dropped when it is a
        repeat, and accepted otherwise. */
    method OnFinal(transcript: string, now: int)
      modifies this`lastUserText, this`lastFinalUserTs, this`messages, this`outbound
      ensures State() == Session.OnFinal(old(State()), transcript, now)
    {
      var t := Trim(transcript);
      if !IsRepeat(t, lastUserText) {
        AcceptFinal(t, now);
      }
    }

    /** Acceptance of a final transcript: remembered with its time stamp, added to the transcript
        and sent. */
    method AcceptFinal(t: string, now: int)
      modifies this`lastUserText, this`lastFinalUserTs, this`messages, this`outbound
      ensures CaptureState() == old(CaptureState()).(lastUserText := t, lastFinalUserTs := now)
      ensures messages == old(messages) + [Message(t, User, None)]
      ensures ChannelState() == Send(old(ChannelState()), t)
    {
      lastUserText := t;
      lastFinalUserTs := now;
      AddMessage(t, User, None);
      SendToServer(t);
    }

    method OnResult(results: seq<RecResult>, now: int)
      requires Valid()
      modifies this`isSpeaking, this`currentUtterance, this`synthesisCalls
      modifies this`lastUserText, this`lastFinalUserTs, this`messages, this`outbound
      ensures State() == Session.OnResult(old(State()), results, now)
      ensures Valid()
    {
      if results == [] {
        return;
      }
      var result := results[|results| - 1];
      if !result.isFinal && isSpeaking {
        CancelTts(true);  // barge-in
      }
      if result.isFinal {
        OnFinal(result.transcript, now);
      }
    }

    method MicClick()
      requires Valid()
      modifies this`isSpeaking, this`currentUtterance, this`synthesisCalls
      modifies this`hasRecognition, this`manualStop, this`recognitionCalls, this`isListening, this`lastUserText
      ensures State() == Session.MicClick(old(State()))
      ensures Valid()
    {
      if isListening || isSpeaking {
        StopRecognition();
        CancelTts(true);
      } else {
        lastUserText := "";
        StartRecognition();
      }
    }

    /** `handleServerMessage`, given the frame as `JSON.parse` left it. */
    method HandleServerMessage(parsed: Option<Frame>, now: int)
      requires Valid()
      modifies this`messages, this`isSpeaking, this`currentUtterance, this`synthesisCalls
      modifies this`nextUtteranceId, this`speakTimers
      ensures State() == Session.HandleServerMessage(old(State()), parsed, now)
      ensures Valid()
    {
      var reply := ReplyOf(parsed);
      if reply.None? {
        return;
      }
      ShowAndSpeak(reply.value.0, reply.value.1, now);
    }

    /** A reply is added to the transcript as an `ai` message and spoken after the gap. */
    method ShowAndSpeak(text: string, source: Option<string>, now: int)
      modifies this`messages, this`isSpeaking, this`currentUtterance, this`synthesisCalls
      modifies this`nextUtteranceId, this`speakTimers
      ensures messages == old(messages) + [Message(text, Ai, source)]
      ensures PlaybackState() == Session.SpeakWithGap(old(PlaybackState()), text, now, lastFinalUserTs)
    {
      AddMessage(text, Ai, source);
      SpeakWithGap(text, now);
    }
  }
}
