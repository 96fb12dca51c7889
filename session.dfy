/**
 * The voice interaction controller of the browser client (public/script.js) as
 * values. The script's module-level variables are grouped by the part of the
 * client they belong to: the socket (`Channel`), the chat transcript, speech
 * synthesis (`Playback`) and speech recognition (`Capture`). Every handler the
 * script registers is a function from the part it changes before the callback
 * to that part after it. Timers are explicit queues, and the calls the script
 * makes into the host (socket sends, recognition start/stop/abort, synthesis
 * speak/cancel) are appended to logs. `Controller.VoiceSession` runs the same
 * handlers in place; this module is its specification.
 */
module Session {
  import opened Wrappers
  import opened Text
  import opened Voices

  /** The least gap, in milliseconds, between the last final user transcript and the start of speech. */
  const MIN_GAP_MS: int := 1000
  /** The delay before recognition is restarted after an error or an end. */
  const RESTART_DELAY_MS: int := 500
  /** The recognition error that means the user refused the microphone. */
  const PERMISSION_DENIED: string := "not-allowed"

  datatype Role = User | Ai

  /** An entry of the chat transcript; `source` names the provider that answered. */
  datatype Message = Message(text: string, role: Role, source: Option<string>)

  /** A synthesis request. `id` stands for the identity of the utterance object. */
  datatype Utterance = Utterance(id: nat, text: string, voice: Option<Voice>)

  /** A pending `setTimeout(() => speechSynthesis.speak(u), wait)`. */
  datatype SpeakTimer = SpeakTimer(utterance: Utterance, fireAt: int)

  /** Calls into the recognition object. */
  datatype RecognitionCall = RecStart | RecStop | RecAbort

  /** Calls into the synthesis service. */
  datatype SynthesisCall = SynthSpeak(utterance: Utterance) | SynthCancel

  /** One recognition result: whether it is final, and the transcript of its first alternative. */
  datatype RecResult = RecResult(isFinal: bool, transcript: string)

  /** A downstream frame after `JSON.parse`: its `text` and `source` fields, when present as strings. */
  datatype Frame = Frame(text: Option<string>, source: Option<string>)

  /** The socket: whether it is open, and every frame sent upstream. */
  datatype Channel = Channel(isOpen: bool, outbound: seq<string>)

  /** Speech synthesis: the voice list and the chosen index, the playback flags, the pending speak
      timers and the calls made into the synthesis service. */
  datatype Playback = Playback(
    voices: seq<Voice>,
    selectedVoiceIndex: int,
    isSpeaking: bool,
    currentUtterance: Option<Utterance>,
    nextUtteranceId: nat,
    speakTimers: seq<SpeakTimer>,
    synthesisCalls: seq<SynthesisCall>)

  /** Speech recognition: whether the recognition object exists, the listening and manual-stop flags,
      the duplicate memory and its time stamp, the pending restart timers (their fire times) and the
      calls made into the recognition object. */
  datatype Capture = Capture(
    hasRecognition: bool,
    isListening: bool,
    manualStop: bool,
    lastUserText: string,
    lastFinalUserTs: int,
    restartTimers: seq<int>,
    recognitionCalls: seq<RecognitionCall>)

  datatype State = State(channel: Channel, messages: seq<Message>, playback: Playback, capture: Capture)

  /** The current utterance, when there is one, is the most recently created; pending speak timers hold
      distinct utterances, in the order they were created. */
  predicate PlaybackInv(p: Playback) {
    && (p.currentUtterance.Some? ==> p.currentUtterance.value.id + 1 == p.nextUtteranceId)
    && (forall k :: 0 <= k < |p.speakTimers| ==> p.speakTimers[k].utterance.id < p.nextUtteranceId)
    && (forall j, k :: 0 <= j < k < |p.speakTimers| ==>
          p.speakTimers[j].utterance.id < p.speakTimers[k].utterance.id)
  }

  /** Listening, a manual stop and any call into recognition presuppose the recognition object. */
  predicate CaptureInv(c: Capture) {
    c.isListening || c.manualStop || c.recognitionCalls != [] ==> c.hasRecognition
  }

  predicate Inv(s: State) {
    PlaybackInv(s.playback) && CaptureInv(s.capture)
  }

  /** A one-shot timer leaves its queue when it fires. */
  function RemoveAt<T>(q: seq<T>, i: nat): (r: seq<T>)
    requires i < |q|
    ensures |r| == |q| - 1
    ensures forall k :: 0 <= k < |r| ==> r[k] == q[if k < i then k else k + 1]
  {
    q[..i] + q[i + 1..]
  }

  // ---------------------------------------------------------------- channel

  /** `sendToServer`: a frame goes out only while the socket is open; otherwise it is lost. */
  function Send(ch: Channel, text: string): (r: Channel)
    ensures r.isOpen == ch.isOpen
    ensures ch.isOpen ==> r.outbound == ch.outbound + [text]
    ensures !ch.isOpen ==> r.outbound == ch.outbound
  {
    if ch.isOpen then ch.(outbound := ch.outbound + [text]) else ch
  }

  // ---------------------------------------------------------------- playback

  /** `populateVoiceList`: replaces the voice list and selects the first regional voice (-1 when none). */
  function PopulateVoiceList(p: Playback, available: seq<Voice>): (r: Playback)
    ensures r.voices == available
    ensures r.selectedVoiceIndex == FindRegional(available)
    ensures r.selectedVoiceIndex == -1 <==> forall k :: 0 <= k < |available| ==> !IsRegional(available[k])
    ensures r.selectedVoiceIndex >= 0 ==>
              r.selectedVoiceIndex < |available| && IsRegional(available[r.selectedVoiceIndex])
    ensures r == p.(voices := available, selectedVoiceIndex := r.selectedVoiceIndex)
  {
    p.(voices := available, selectedVoiceIndex := PreferredIndex(available))
  }

  /** The voice selector's change handler. */
  function SelectVoice(p: Playback, parsed: Option<int>): (r: Playback)
    ensures r.selectedVoiceIndex == SelectedIndex(parsed)
    ensures r == p.(selectedVoiceIndex := r.selectedVoiceIndex)
  {
    p.(selectedVoiceIndex := SelectedIndex(parsed))
  }

  /** `cancelTTS`: whatever the state, nothing is speaking and no utterance is current afterwards.
      A speak timer that is already pending is NOT withdrawn. */
  function CancelTts(p: Playback, force: bool): (r: Playback)
    ensures !r.isSpeaking && r.currentUtterance == None
    ensures r.speakTimers == p.speakTimers
    ensures r.synthesisCalls == p.synthesisCalls + (if force then [SynthCancel] else [])
    ensures r == p.(isSpeaking := false, currentUtterance := None, synthesisCalls := r.synthesisCalls)
    ensures PlaybackInv(p) ==> PlaybackInv(r)
  {
    var calls := if force then p.synthesisCalls + [SynthCancel] else p.synthesisCalls;
    p.(synthesisCalls := calls, isSpeaking := false, currentUtterance := None)
  }

  /** `Math.max(0, MIN_GAP_MS - (now - lastFinalUserTs))`: the wait is never negative, ends no earlier
      than MIN_GAP_MS after the last final transcript, is the shortest such wait, and is at most
      MIN_GAP_MS when the clock has not gone backwards. */
  function GapWait(now: int, lastFinalUserTs: int): (w: int)
    ensures w >= 0
    ensures now + w >= lastFinalUserTs + MIN_GAP_MS
    ensures w == 0 || now + w == lastFinalUserTs + MIN_GAP_MS
    ensures now >= lastFinalUserTs ==> w <= MIN_GAP_MS
  {
    var w := MIN_GAP_MS - (now - lastFinalUserTs);
    if w > 0 then w else 0
  }

  /** `speakWithGap`: cancels playback, creates a new utterance with the selected voice (none when the
      index names no voice), makes it current and schedules its speak for the end of the gap. */
  function SpeakWithGap(p: Playback, text: string, now: int, lastFinalUserTs: int): (r: Playback)
    ensures var u := Utterance(p.nextUtteranceId, text, VoiceAt(p.voices, p.selectedVoiceIndex));
            && r.currentUtterance == Some(u)
            && |r.speakTimers| == |p.speakTimers| + 1
            && r.speakTimers[..|p.speakTimers|] == p.speakTimers
            && r.speakTimers[|p.speakTimers|].utterance == u
    ensures var at := r.speakTimers[|p.speakTimers|].fireAt;
            && at >= now
            && at >= lastFinalUserTs + MIN_GAP_MS
            && (at == now || at == lastFinalUserTs + MIN_GAP_MS)
            && (now >= lastFinalUserTs ==> at <= now + MIN_GAP_MS)
    ensures !r.isSpeaking && r.nextUtteranceId == p.nextUtteranceId + 1
    ensures r.synthesisCalls == p.synthesisCalls + [SynthCancel]
    ensures r.voices == p.voices && r.selectedVoiceIndex == p.selectedVoiceIndex
    ensures PlaybackInv(p) ==> PlaybackInv(r)
  {
    var c := CancelTts(p, true);
    var u := Utterance(c.nextUtteranceId, text, VoiceAt(c.voices, c.selectedVoiceIndex));
    var wait := GapWait(now, lastFinalUserTs);
    c.(currentUtterance := Some(u), nextUtteranceId := c.nextUtteranceId + 1,
       speakTimers := c.speakTimers + [SpeakTimer(u, now + wait)])
  }

  /** A speak timer fires: its utterance goes to the synthesis service, whether or not it was
      cancelled in the meantime. */
  function FireSpeakTimer(p: Playback, i: nat): (r: Playback)
    requires i < |p.speakTimers|
    ensures r.synthesisCalls == p.synthesisCalls + [SynthSpeak(p.speakTimers[i].utterance)]
    ensures r.speakTimers == RemoveAt(p.speakTimers, i)
    ensures r == p.(speakTimers := r.speakTimers, synthesisCalls := r.synthesisCalls)
    ensures PlaybackInv(p) ==> PlaybackInv(r)
  {
    p.(speakTimers := RemoveAt(p.speakTimers, i),
       synthesisCalls := p.synthesisCalls + [SynthSpeak(p.speakTimers[i].utterance)])
  }

  /** An utterance's `onstart`: marks speaking, whichever utterance it belongs to. */
  function OnUtteranceStart(p: Playback): (r: Playback)
    ensures r.isSpeaking
    ensures r == p.(isSpeaking := true)
    ensures PlaybackInv(p) ==> PlaybackInv(r)
  {
    p.(isSpeaking := true)
  }

  /** An utterance's `onend` and `onerror` (they do the same): nothing is speaking or current,
      whichever utterance it belongs to. */
  function OnUtteranceDone(p: Playback): (r: Playback)
    ensures !r.isSpeaking && r.currentUtterance == None
    ensures r == p.(isSpeaking := false, currentUtterance := None)
    ensures PlaybackInv(p) ==> PlaybackInv(r)
  {
    p.(isSpeaking := false, currentUtterance := None)
  }

  /** Barge-in, shared by `onspeechstart` and interim results: speech while the assistant is speaking
      cancels playback; otherwise nothing changes. */
  function BargeIn(p: Playback): (r: Playback)
    ensures p.isSpeaking ==> r == CancelTts(p, true)
    ensures !p.isSpeaking ==> r == p
    ensures !r.isSpeaking
    ensures PlaybackInv(p) ==> PlaybackInv(r)
  {
    if p.isSpeaking then CancelTts(p, true) else p
  }

  // ---------------------------------------------------------------- capture

  /** `startRecognition`: creates the recognition object on first use; a no-op while listening;
      otherwise clears `manualStop` and starts recognition. It does not set `isListening`. */
  function StartRecognition(c: Capture): (r: Capture)
    ensures r.hasRecognition
    ensures c.isListening ==> r == c.(hasRecognition := true)
    ensures !c.isListening ==> r == c.(hasRecognition := true, manualStop := false,
                                       recognitionCalls := c.recognitionCalls + [RecStart])
    ensures CaptureInv(r)
  {
    var c1 := if !c.hasRecognition then c.(hasRecognition := true) else c;
    if c1.isListening then c1
    else c1.(manualStop := false, recognitionCalls := c1.recognitionCalls + [RecStart])
  }

  /** `stopRecognition`: without a recognition object nothing happens; otherwise `manualStop` is set,
      recognition is stopped and aborted, and listening ends. */
  function StopRecognition(c: Capture): (r: Capture)
    ensures !c.hasRecognition ==> r == c
    ensures c.hasRecognition ==> r == c.(manualStop := true, isListening := false,
                                         recognitionCalls := c.recognitionCalls + [RecStop, RecAbort])
    ensures CaptureInv(c) ==> CaptureInv(r)
  {
    if !c.hasRecognition then c
    else c.(manualStop := true, recognitionCalls := c.recognitionCalls + [RecStop, RecAbort], isListening := false)
  }

  /** `recognition.onstart`: the only place listening begins. */
  function OnRecognitionStart(c: Capture): (r: Capture)
    ensures r == c.(isListening := true)
    ensures c.hasRecognition && CaptureInv(c) ==> CaptureInv(r)
  {
    c.(isListening := true)
  }

  /** `recognition.onerror`: listening ends; a restart is scheduled exactly when the stop was not
      manual and the error is not a permission refusal. */
  function OnError(c: Capture, error: string, now: int): (r: Capture)
    ensures !r.isListening
    ensures |r.restartTimers| == |c.restartTimers| + 1 <==> !c.manualStop && error != PERMISSION_DENIED
    ensures r.restartTimers == c.restartTimers + (if !c.manualStop && error != PERMISSION_DENIED then [now + RESTART_DELAY_MS] else [])
    ensures r == c.(isListening := false, restartTimers := r.restartTimers)
    ensures CaptureInv(c) ==> CaptureInv(r)
  {
    var timers := if !c.manualStop && error != PERMISSION_DENIED then c.restartTimers + [now + RESTART_DELAY_MS] else c.restartTimers;
    c.(isListening := false, restartTimers := timers)
  }

  /** `recognition.onend`: listening ends; a restart is scheduled exactly when the stop was not
      manual and nothing is speaking. */
  function OnEnd(c: Capture, isSpeaking: bool, now: int): (r: Capture)
    ensures !r.isListening
    ensures |r.restartTimers| == |c.restartTimers| + 1 <==> !c.manualStop && !isSpeaking
    ensures r.restartTimers == c.restartTimers + (if !c.manualStop && !isSpeaking then [now + RESTART_DELAY_MS] else [])
    ensures r == c.(isListening := false, restartTimers := r.restartTimers)
    ensures CaptureInv(c) ==> CaptureInv(r)
  {
    var timers := if !c.manualStop && !isSpeaking then c.restartTimers + [now + RESTART_DELAY_MS] else c.restartTimers;
    c.(isListening := false, restartTimers := timers)
  }

  /** A restart timer fires and runs `startRecognition`, without looking at `manualStop`. */
  function FireRestartTimer(c: Capture, i: nat): (r: Capture)
    requires i < |c.restartTimers|
    ensures r == StartRecognition(c.(restartTimers := RemoveAt(c.restartTimers, i)))
    ensures r.restartTimers == RemoveAt(c.restartTimers, i)
    ensures !c.isListening ==> !r.manualStop && r.recognitionCalls == c.recognitionCalls + [RecStart]
    ensures CaptureInv(r)
  {
    StartRecognition(c.(restartTimers := RemoveAt(c.restartTimers, i)))
  }

  // ---------------------------------------------------------------- coordination

  /** The duplicate test on a trimmed final transcript: empty, or equal to the last accepted one ignoring case. */
  predicate IsRepeat(transcript: string, lastUserText: string) {
    transcript == [] || Lower(transcript) == Lower(lastUserText)
  }

  /** A final transcript. Once trimmed, an empty one or one that repeats the last accepted transcript
      (ignoring case) changes nothing. Any other is accepted, and acceptance does exactly four things: it
      becomes the last user text, stamps `now`, is appended once to the transcript as a user message, and
      is sent once (a frame goes out if the socket is open). Playback is never touched. */
  function OnFinal(s: State, transcript: string, now: int): (r: State)
    ensures r.playback == s.playback
    ensures IsRepeat(Trim(transcript), s.capture.lastUserText) ==> r == s
    ensures var t := Trim(transcript);
            !IsRepeat(t, s.capture.lastUserText) ==>
              && r.capture == s.capture.(lastUserText := t, lastFinalUserTs := now)
              && r.messages == s.messages + [Message(t, User, None)]
              && r.channel == Send(s.channel, t)
    ensures Inv(s) ==> Inv(r)
  {
    var t := Trim(transcript);
    if IsRepeat(t, s.capture.lastUserText) then s
    else
      s.(capture := s.capture.(lastUserText := t, lastFinalUserTs := now),
         messages := s.messages + [Message(t, User, None)],
         channel := Send(s.channel, t))
  }

  /** `recognition.onresult`, which looks only at the last result of the event: an interim result is
      a barge-in, a final result is a transcript. A final result never cancels playback. */
  function OnResult(s: State, results: seq<RecResult>, now: int): (r: State)
    ensures results == [] ==> r == s
    ensures results != [] && !results[|results| - 1].isFinal ==> r == s.(playback := BargeIn(s.playback))
    ensures results != [] && results[|results| - 1].isFinal ==>
              && r == OnFinal(s, results[|results| - 1].transcript, now)
              && r.playback == s.playback
    ensures Inv(s) ==> Inv(r)
  {
    if results == [] then s
    else
      var result := results[|results| - 1];
      if !result.isFinal then s.(playback := BargeIn(s.playback))
      else OnFinal(s, result.transcript, now)
  }

  /** The mic button. While listening or speaking it stops both: recognition is stopped (manually, when the
      recognition object exists) and playback cancelled. Otherwise the duplicate memory is cleared and
      recognition started. */
  function MicClick(s: State): (r: State)
    ensures r.channel == s.channel && r.messages == s.messages
    ensures s.capture.isListening || s.playback.isSpeaking ==>
              && r.capture == StopRecognition(s.capture)
              && r.playback == CancelTts(s.playback, true)
              && !r.playback.isSpeaking
              && r.capture.manualStop == (s.capture.manualStop || s.capture.hasRecognition)
              && (CaptureInv(s.capture) ==> !r.capture.isListening)
    ensures !(s.capture.isListening || s.playback.isSpeaking) ==>
              && r.capture == StartRecognition(s.capture.(lastUserText := []))
              && r.capture.lastUserText == [] && !r.capture.manualStop
              && r.playback == s.playback
    ensures Inv(s) ==> Inv(r)
  {
    if s.capture.isListening || s.playback.isSpeaking then
      s.(capture := StopRecognition(s.capture), playback := CancelTts(s.playback, true))
    else
      s.(capture := StartRecognition(s.capture.(lastUserText := [])))
  }

  /** The reply a downstream frame carries: present when the frame parsed and its `text` is a non-empty
      string (an absent or empty `text` is falsy and the frame is dropped). */
  function ReplyOf(parsed: Option<Frame>): (r: Option<(string, Option<string>)>)
    ensures r.Some? <==> parsed.Some? && parsed.value.text.Some? && parsed.value.text.value != []
    ensures r.Some? ==> r.value == (parsed.value.text.value, parsed.value.source)
  {
    match parsed
    case None => None
    case Some(f) =>
      match f.text
      case None => None
      case Some(t) => if t == [] then None else Some((t, f.source))
  }

  /** `handleServerMessage`: a frame that did not parse or has no text changes nothing; a reply is
      appended once to the transcript as an `ai` message with its source and then spoken after the gap. */
  function HandleServerMessage(s: State, parsed: Option<Frame>, now: int): (r: State)
    ensures ReplyOf(parsed).None? ==> r == s
    ensures ReplyOf(parsed).Some? ==>
              var text := parsed.value.text.value;
              && r.messages == s.messages + [Message(text, Ai, parsed.value.source)]
              && r.playback == SpeakWithGap(s.playback, text, now, s.capture.lastFinalUserTs)
              && r.channel == s.channel && r.capture == s.capture
    ensures Inv(s) ==> Inv(r)
  {
    var reply := ReplyOf(parsed);
    if reply.None? then s
    else
      var text := reply.value.0;
      s.(messages := s.messages + [Message(text, Ai, reply.value.1)],
         playback := SpeakWithGap(s.playback, text, now, s.capture.lastFinalUserTs))
  }

  // ---------------------------------------------------------------- the page

  /** The state when the page has loaded: socket connecting, nothing said, no recognition object yet,
      and `populateVoiceList` run once on whatever voices the host lists at that moment. */
  function Init(available: seq<Voice>): (r: State)
    ensures Inv(r)
    ensures r.channel == Channel(false, []) && r.messages == []
    ensures r.capture == Capture(false, false, false, [], 0, [], [])
    ensures r.playback == Playback(available, FindRegional(available), false, None, 0, [], [])
  {
    var p := PopulateVoiceList(Playback([], 0, false, None, 0, [], []), available);
    State(Channel(false, []), [], p, Capture(false, false, false, [], 0, [], []))
  }

  /** Everything the environment can do to the client: socket and host callbacks, the user's clicks,
      inbound frames and the firing of a pending timer (by its position in the queue). */
  datatype Event =
    | SocketOpened
    | SocketClosed
    | VoicesChanged(available: seq<Voice>)
    | VoiceChosen(index: Option<int>)
    | RecognitionStarted
    | SpeechStarted
    | RecognitionResult(results: seq<RecResult>, now: int)
    | RecognitionError(error: string, now: int)
    | RecognitionEnded(now: int)
    | MicClicked
    | ServerFrame(parsed: Option<Frame>, now: int)
    | UtteranceStarted(u: Utterance)
    | UtteranceEnded(u: Utterance)
    | UtteranceFailed(u: Utterance)
    | RestartTimerFired(i: nat)
    | SpeakTimerFired(i: nat)

  /** Which events the host can deliver: recognition callbacks need the recognition object, utterance
      callbacks an utterance handed to the synthesis service, and a timer must be pending. */
  predicate Enabled(s: State, e: Event) {
    match e
    case RecognitionStarted => s.capture.hasRecognition
    case SpeechStarted => s.capture.hasRecognition
    case RecognitionResult(_, _) => s.capture.hasRecognition
    case RecognitionError(_, _) => s.capture.hasRecognition
    case RecognitionEnded(_) => s.capture.hasRecognition
    case UtteranceStarted(u) => SynthSpeak(u) in s.playback.synthesisCalls
    case UtteranceEnded(u) => SynthSpeak(u) in s.playback.synthesisCalls
    case UtteranceFailed(u) => SynthSpeak(u) in s.playback.synthesisCalls
    case RestartTimerFired(i) => i < |s.capture.restartTimers|
    case SpeakTimerFired(i) => i < |s.playback.speakTimers|
    case _ => true
  }

  /** One event; an event the host cannot deliver in `s` leaves `s` as it is. */
  function Step(s: State, e: Event): (r: State)
    ensures Inv(s) ==> Inv(r)
  {
    if !Enabled(s, e) then s
    else
      match e
      case SocketOpened => s.(channel := s.channel.(isOpen := true))
      case SocketClosed => s.(channel := s.channel.(isOpen := false))
      case VoicesChanged(available) => s.(playback := PopulateVoiceList(s.playback, available))
      case VoiceChosen(index) => s.(playback := SelectVoice(s.playback, index))
      case RecognitionStarted => s.(capture := OnRecognitionStart(s.capture))
      case SpeechStarted => s.(playback := BargeIn(s.playback))
      case RecognitionResult(results, now) => OnResult(s, results, now)
      case RecognitionError(error, now) => s.(capture := OnError(s.capture, error, now))
      case RecognitionEnded(now) => s.(capture := OnEnd(s.capture, s.playback.isSpeaking, now))
      case MicClicked => MicClick(s)
      case ServerFrame(parsed, now) => HandleServerMessage(s, parsed, now)
      case UtteranceStarted(_) => s.(playback := OnUtteranceStart(s.playback))
      case UtteranceEnded(_) => s.(playback := OnUtteranceDone(s.playback))
      case UtteranceFailed(_) => s.(playback := OnUtteranceDone(s.playback))
      case RestartTimerFired(i) => s.(capture := FireRestartTimer(s.capture, i))
      case SpeakTimerFired(i) => s.(playback := FireSpeakTimer(s.playback, i))
  }

  /** A sequence of events, in order. */
  function Run(s: State, events: seq<Event>): (r: State)
    ensures Inv(s) ==> Inv(r)
    decreases |events|
  {
    if events == [] then s else Run(Step(s, events[0]), events[1..])
  }
}
