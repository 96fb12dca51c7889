/**
 * Properties of the controller over sequences of events, including behaviours a
 * reader would not expect from the script: a restart scheduled before a manual stop
 * still restarts recognition, a refused microphone is retried after the `end` that follows
 * the error, a reply cancelled during its gap still plays, and with
 * no regional voice the voice index is -1 and the platform default speaks.
 */
module Properties {
  import opened Wrappers
  import opened Text
  import opened Voices
  import opened Session

  /** The logs only grow: no event removes a sent frame, a transcript entry or a call made into the host. */
  predicate Extends(s: State, r: State) {
    && s.channel.outbound <= r.channel.outbound
    && s.messages <= r.messages
    && s.capture.recognitionCalls <= r.capture.recognitionCalls
    && s.playback.synthesisCalls <= r.playback.synthesisCalls
  }

  lemma StepExtends(s: State, e: Event)
    ensures Extends(s, Step(s, e))
  {
  }

  lemma {:induction false} RunExtends(s: State, events: seq<Event>)
    ensures Extends(s, Run(s, events))
    decreases |events|
  {
    if events != [] {
      var s1 := Step(s, events[0]);
      StepExtends(s, events[0]);
      RunExtends(s1, events[1..]);
    }
  }

  lemma StepKeepsClosed(s: State, e: Event)
    requires !s.channel.isOpen && e != SocketOpened
    ensures Step(s, e).channel == s.channel
  {
  }

  /** While the socket stays closed nothing is sent and nothing is queued for later:
      utterances accepted meanwhile are lost. */
  lemma {:induction false} ClosedChannelDropsSends(s: State, events: seq<Event>)
    requires !s.channel.isOpen
    requires forall k :: 0 <= k < |events| ==> events[k] != SocketOpened
    ensures Run(s, events).channel == s.channel
    decreases |events|
  {
    if events != [] {
      StepKeepsClosed(s, events[0]);
      ClosedChannelDropsSends(Step(s, events[0]), events[1..]);
    }
  }

  /** The comparison key of a transcript: trimmed, then lower-cased. */
  function Key(transcript: string): string {
    Lower(Trim(transcript))
  }

  /** A recognition event whose last result is final, with the given key. */
  predicate IsFinalWithKey(e: Event, key: string) {
    && e.RecognitionResult?
    && e.results != []
    && e.results[|e.results| - 1].isFinal
    && Key(e.results[|e.results| - 1].transcript) == key
  }

  lemma RepeatIgnored(s: State, e: Event, key: string)
    requires Lower(s.capture.lastUserText) == key || !s.capture.hasRecognition
    requires IsFinalWithKey(e, key)
    ensures Step(s, e) == s
  {
    if s.capture.hasRecognition {
      assert Step(s, e) == OnFinal(s, e.results[|e.results| - 1].transcript, e.now);
    }
  }

  /** The duplicate test ignores ASCII letter case and nothing else: a trimmed transcript is a repeat
      exactly when it is empty or agrees with the last accepted one letter by letter up to case. */
  lemma IsRepeatIgnoresCase(t: string, lastUserText: string)
    ensures IsRepeat(t, lastUserText) <==> t == [] || EqualIgnoringCase(t, lastUserText)
  {
    LowerEqualIff(t, lastUserText);
  }

  /** Once a transcript is accepted, finals that repeat it (ignoring case and surrounding whitespace)
      change nothing at all. */
  lemma {:induction false} RepeatsAreIgnored(s: State, events: seq<Event>, key: string)
    requires Lower(s.capture.lastUserText) == key || !s.capture.hasRecognition
    requires forall k :: 0 <= k < |events| ==> IsFinalWithKey(events[k], key)
    ensures Run(s, events) == s
    decreases |events|
  {
    if events != [] {
      RepeatIgnored(s, events[0], key);
      RepeatsAreIgnored(s, events[1..], key);
    }
  }

  /** The first final of such a run, when it is not a repeat, is accepted. */
  lemma AcceptFirst(s: State, e: Event, key: string)
    requires key != [] && IsFinalWithKey(e, key)
    requires s.capture.hasRecognition && Lower(s.capture.lastUserText) != key
    ensures var r := Step(s, e);
            && Lower(r.capture.lastUserText) == key && r.capture.hasRecognition
            && r.messages == s.messages + [Message(r.capture.lastUserText, User, None)]
            && r.channel == Send(s.channel, r.capture.lastUserText)
            && r.playback == s.playback
  {
    var t := Trim(e.results[|e.results| - 1].transcript);
    assert Lower(t) == key;
    assert !IsRepeat(t, s.capture.lastUserText);
    assert Step(s, e) == OnFinal(s, e.results[|e.results| - 1].transcript, e.now);
  }

  /** Any number of consecutive finals that agree ignoring case and surrounding whitespace add exactly
      one user message and make exactly one send attempt (one frame when the socket is open), unless
      the first of them already repeats the last accepted transcript, in which case they add nothing.
      Playback is untouched throughout. */
  lemma {:induction false} RepeatedFinalsSendOnce(s: State, events: seq<Event>, key: string)
    requires key != []
    requires forall k :: 0 <= k < |events| ==> IsFinalWithKey(events[k], key)
    ensures var r := Run(s, events);
            var accepted := events != [] && s.capture.hasRecognition && Lower(s.capture.lastUserText) != key;
            && |r.messages| == |s.messages| + (if accepted then 1 else 0)
            && |r.channel.outbound| == |s.channel.outbound| + (if accepted && s.channel.isOpen then 1 else 0)
            && (accepted ==> r.messages[|s.messages|].role == User && Lower(r.messages[|s.messages|].text) == key)
            && r.playback == s.playback
  {
    if events == [] {
    } else if !s.capture.hasRecognition || Lower(s.capture.lastUserText) == key {
      RepeatsAreIgnored(s, events, key);
    } else {
      var s1 := Step(s, events[0]);
      AcceptFirst(s, events[0], key);
      RepeatsAreIgnored(s1, events[1..], key);
      assert Run(s, events) == Run(s1, events[1..]);
    }
  }

  /** The events that run `startRecognition` in state `s`: a restart timer firing, and a click of the
      mic button that takes the start branch (neither listening nor speaking). */
  predicate RunsStart(s: State, e: Event) {
    e.RestartTimerFired? || (e.MicClicked? && !s.capture.isListening && !s.playback.isSpeaking)
  }

  lemma StepKeepsStop(s: State, e: Event)
    requires s.capture.manualStop && !RunsStart(s, e)
    ensures Step(s, e).capture.manualStop
    ensures Step(s, e).capture.restartTimers == s.capture.restartTimers
  {
  }

  /** After a manual stop, no error or end schedules a restart, and the stop stays in force, until
      `startRecognition` runs again. Clicks that take the stop branch (to silence a reply, say) keep it. */
  lemma {:induction false} StopSuppressesRestarts(s: State, events: seq<Event>)
    requires s.capture.manualStop
    requires forall k :: 0 <= k < |events| ==> !RunsStart(Run(s, events[..k]), events[k])
    ensures Run(s, events).capture.manualStop
    ensures Run(s, events).capture.restartTimers == s.capture.restartTimers
    decreases |events|
  {
    if events != [] {
      assert events[..0] == [];
      StepKeepsStop(s, events[0]);
      var s1 := Step(s, events[0]);
      var rest := events[1..];
      forall k | 0 <= k < |rest|
        ensures !RunsStart(Run(s1, rest[..k]), rest[k])
      {
        assert events[..k + 1] == [events[0]] + rest[..k];
        assert rest[k] == events[k + 1];
      }
      StopSuppressesRestarts(s1, rest);
    }
  }

  /** The restart timer does not look at `manualStop`: a restart scheduled by an error before the user
      pressed stop (while the assistant was speaking) still fires, clears `manualStop` and starts
      recognition again. */
  lemma PendingRestartOverridesStop(s: State, error: string, now: int)
    requires s.capture.hasRecognition && !s.capture.manualStop && s.playback.isSpeaking
    requires error != PERMISSION_DENIED
    ensures var s1 := s.(capture := OnError(s.capture, error, now));
            var s2 := MicClick(s1);
            var s3 := FireRestartTimer(s2.capture, |s2.capture.restartTimers| - 1);
            && |s2.capture.restartTimers| == |s.capture.restartTimers| + 1
            && s2.capture.manualStop
            && !s3.manualStop
            && s3.recognitionCalls == s2.capture.recognitionCalls + [RecStart]
  {
  }

  /** A refused microphone is retried: a "not-allowed" error queues no restart itself, but the `end`
      the recognition service delivers after it does when nothing is speaking, and that restart clears
      `manualStop` and starts recognition again. */
  lemma PermissionDeniedStillRestarts(c: Capture, t: int, t2: int)
    requires !c.manualStop
    ensures var c1 := OnError(c, PERMISSION_DENIED, t);
            var c2 := OnEnd(c1, false, t2);
            var c3 := FireRestartTimer(c2, |c2.restartTimers| - 1);
            && c1.restartTimers == c.restartTimers
            && c2.restartTimers == c.restartTimers + [t2 + RESTART_DELAY_MS]
            && !c3.manualStop
            && c3.recognitionCalls == c2.recognitionCalls + [RecStart]
  {
  }

  /** Cancelling does not withdraw a speak timer: after a reply is scheduled and the user stops
      playback, the timer still hands the utterance to the synthesis service, and its `onstart`
      marks the client as speaking while no utterance is current. */
  lemma CancelledReplyStillPlays(s: State, frame: Frame, now: int)
    requires frame.text.Some? && frame.text.value != []
    ensures var s1 := HandleServerMessage(s, Some(frame), now);
            var p2 := CancelTts(s1.playback, true);
            var p3 := FireSpeakTimer(p2, |p2.speakTimers| - 1);
            var p4 := OnUtteranceStart(p3);
            && s1.playback.currentUtterance.Some?
            && p2.currentUtterance == None
            && p3.synthesisCalls[|p3.synthesisCalls| - 1] == SynthSpeak(s1.playback.currentUtterance.value)
            && p4.isSpeaking && p4.currentUtterance == None
  {
  }

  /** `cancelTTS` is idempotent: a second call changes nothing but the call log, which gains one more
      cancel when forced. */
  lemma CancelTtsIdempotent(p: Playback, force: bool)
    ensures var once := CancelTts(p, force);
            var twice := CancelTts(once, force);
            && twice == once.(synthesisCalls := twice.synthesisCalls)
            && twice.synthesisCalls == once.synthesisCalls + (if force then [SynthCancel] else [])
  {
  }

  /** A fresh start from the mic button forgets the last transcript, so saying the same phrase again
      is accepted. */
  lemma MicStartClearsDuplicateMemory(s: State, transcript: string, now: int)
    requires !s.capture.isListening && !s.playback.isSpeaking
    requires !AllSpace(transcript)
    ensures var r := OnResult(MicClick(s), [RecResult(true, transcript)], now);
            && r.messages == s.messages + [Message(Trim(transcript), User, None)]
            && r.capture.lastUserText == Trim(transcript)
            && r.capture.lastFinalUserTs == now
  {
    var s1 := MicClick(s);
    var t := Trim(transcript);
    assert t != [];
    assert Lower(s1.capture.lastUserText) == [];
    assert !IsRepeat(t, s1.capture.lastUserText);
  }

  /** Without a regional voice the reply is spoken with no voice set (the platform default),
      even when other voices are available. */
  lemma NoRegionalVoiceSpeaksWithDefault(p: Playback, available: seq<Voice>, text: string, now: int, last: int)
    requires forall k :: 0 <= k < |available| ==> !IsRegional(available[k])
    ensures SpeakWithGap(PopulateVoiceList(p, available), text, now, last).currentUtterance.value.voice == None
  {
    NoRegionalVoiceSelectsNone(available);
  }

  /** `isListening` becomes true only in the recognition `onstart` callback, and `isSpeaking` only in an
      utterance's `onstart`: starting recognition or scheduling a reply raises neither flag. */
  lemma FlagsRaisedOnlyByCallbacks(s: State, e: Event)
    ensures Step(s, e).capture.isListening && !s.capture.isListening ==> e == RecognitionStarted
    ensures Step(s, e).playback.isSpeaking && !s.playback.isSpeaking ==> e.UtteranceStarted?
  {
  }

  lemma TrimPaddedHello()
    ensures Trim(" Hello ") == "Hello"
  {
    TrimPadded(" ", "Hello", " ");
    assert " " + "Hello" + " " == " Hello ";
  }

  lemma LowerHello()
    ensures Lower("Hello") == "hello" && Lower("hello") == "hello"
  {
    assert LowerChar('H') == 'h';
  }

  /** A final transcript without surrounding whitespace that is not a repeat is accepted as it is. */
  lemma AcceptUnpadded(s: State, t: string, now: int)
    requires Unpadded(t) && t != [] && Lower(t) != Lower(s.capture.lastUserText)
    ensures var r := OnFinal(s, t, now);
            && r.channel == Send(s.channel, t)
            && r.capture == s.capture.(lastUserText := t, lastFinalUserTs := now)
            && r.messages == s.messages + [Message(t, User, None)]
            && r.playback == s.playback
  {
    TrimUnpadded(t);
  }

  /** The first final "hello" after a fresh start is accepted and sent. */
  lemma AcceptHello(s: State)
    requires s.capture.lastUserText == [] && s.channel.isOpen
    ensures var r := OnFinal(s, "hello", 0);
            && r.channel.outbound == s.channel.outbound + ["hello"]
            && r.capture == s.capture.(lastUserText := "hello", lastFinalUserTs := 0)
            && r.messages == s.messages + [Message("hello", User, None)]
            && r.playback == s.playback
  {
    var hello := "hello";
    assert Unpadded(hello);
    assert |Lower(hello)| != |Lower(s.capture.lastUserText)|;
    AcceptUnpadded(s, hello, 0);
  }

  /** " Hello " repeats "hello" and is dropped. */
  lemma RejectPaddedHello(s: State)
    requires s.capture.lastUserText == "hello"
    ensures OnFinal(s, " Hello ", 20) == s
  {
    TrimPaddedHello();
    LowerHello();
  }

  /** Page load, the socket opens, the mic button is clicked and recognition starts. */
  lemma ListeningAfterFirstClick()
    ensures var s0 := Init([]);
            var s1 := MicClick(s0.(channel := s0.channel.(isOpen := true)));
            var s2 := s1.(capture := OnRecognitionStart(s1.capture));
            && s2.channel == Channel(true, []) && s2.messages == []
            && s2.capture.lastUserText == [] && s2.capture.lastFinalUserTs == 0
            && s2.playback.speakTimers == []
  {
  }

  /** "hello", then an interim "Hel" and a final " Hello ": one user message and one frame. */
  lemma SaidHelloTwice(s2: State)
    requires s2.channel == Channel(true, []) && s2.messages == []
    requires s2.capture.lastUserText == [] && s2.capture.lastFinalUserTs == 0
    ensures var s3 := OnResult(s2, [RecResult(true, "hello")], 0);
            var s4 := OnResult(s3, [RecResult(false, "Hel"), RecResult(true, " Hello ")], 20);
            && s4.channel.outbound == ["hello"] && s4.messages == [Message("hello", User, None)]
            && s4.capture.lastFinalUserTs == 0 && s4.playback == s2.playback
  {
    AcceptHello(s2);
    var s3 := OnResult(s2, [RecResult(true, "hello")], 0);
    RejectPaddedHello(s3);
  }

  /** The reply at t=50 is added and its speech is scheduled for MIN_GAP_MS after the final at t=0. */
  lemma ReplyAfterHello(s4: State)
    requires s4.messages == [Message("hello", User, None)]
    requires s4.capture.lastFinalUserTs == 0 && s4.playback.speakTimers == []
    ensures var s5 := HandleServerMessage(s4, Some(Frame(Some("Hi there!"), Some("Gemini"))), 50);
            && s5.channel == s4.channel
            && s5.messages == [Message("hello", User, None), Message("Hi there!", Ai, Some("Gemini"))]
            && |s5.playback.speakTimers| == 1 && s5.playback.speakTimers[0].fireAt == MIN_GAP_MS
  {
  }

  /** A first exchange: the user says "hello" at t=0 and, after an interim result, says it again padded
      and capitalised at t=20; one frame goes out. The reply arrives at t=50 and its speech is scheduled
      for t=1000, not t=50. */
  lemma HelloExchange()
    ensures var s0 := Init([]);
            var s1 := MicClick(s0.(channel := s0.channel.(isOpen := true)));
            var s2 := s1.(capture := OnRecognitionStart(s1.capture));
            var s3 := OnResult(s2, [RecResult(true, "hello")], 0);
            var s4 := OnResult(s3, [RecResult(false, "Hel"), RecResult(true, " Hello ")], 20);
            var s5 := HandleServerMessage(s4, Some(Frame(Some("Hi there!"), Some("Gemini"))), 50);
            && s5.channel.outbound == ["hello"]
            && s5.messages == [Message("hello", User, None), Message("Hi there!", Ai, Some("Gemini"))]
            && |s5.playback.speakTimers| == 1 && s5.playback.speakTimers[0].fireAt == MIN_GAP_MS
  {
    ListeningAfterFirstClick();
    var s0 := Init([]);
    var s1 := MicClick(s0.(channel := s0.channel.(isOpen := true)));
    var s2 := s1.(capture := OnRecognitionStart(s1.capture));
    SaidHelloTwice(s2);
    var s3 := OnResult(s2, [RecResult(true, "hello")], 0);
    var s4 := OnResult(s3, [RecResult(false, "Hel"), RecResult(true, " Hello ")], 20);
    ReplyAfterHello(s4);
  }
}
